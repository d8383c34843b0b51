/** The scoring parameters, read once from the process environment with a
    typed fallback to their defaults. */
module Config {
  import opened Wrappers

  /** A Python `int` or `float`. */
  datatype Num = Int(i: int) | Float(f: real) {
    /** The number's value; these reals idealise Python floats. */
    function AsReal(): real {
      match this
      case Int(i) => i as real
      case Float(f) => f
    }
  }

  /** The process environment, after the `.env` file has been loaded. */
  type Env = map<string, string>

  /** Python's `int(s)` and `float(s)` on a string; None stands for the
      ValueError they raise on text they cannot read. */
  datatype Converters = Converters(toInt: string -> Option<int>, toFloat: string -> Option<real>)

  /** `type(default)(text)`: the text read as a number of the default's
      type. */
  function Convert(conv: Converters, default: Num, text: string): (r: Option<Num>)
    ensures r.Some? ==> r.value.Int? == default.Int?
    ensures default.Int? ==> (r.Some? <==> conv.toInt(text).Some?)
                             && (r.Some? ==> r.value == Int(conv.toInt(text).value))
    ensures default.Float? ==> (r.Some? <==> conv.toFloat(text).Some?)
                               && (r.Some? ==> r.value == Float(conv.toFloat(text).value))
  {
    match default
    case Int(_) => (match conv.toInt(text) case Some(n) => Some(Int(n)) case None => None)
    case Float(_) => (match conv.toFloat(text) case Some(x) => Some(Float(x)) case None => None)
  }

  /** `get_env_variable(name, default)`: the variable read with the
      default's type; an unset or unreadable variable gives the default. */
  function GetEnvVariable(env: Env, name: string, default: Num, conv: Converters): (r: Num)
    ensures r.Int? == default.Int?
    ensures name !in env ==> r == default
    ensures name in env && Convert(conv, default, env[name]).None? ==> r == default
    ensures name in env && Convert(conv, default, env[name]).Some? ==>
              r == Convert(conv, default, env[name]).value
  {
    if name !in env then default
    else Convert(conv, default, env[name]).GetOr(default)
  }

  /** `PRScoringConfig`. */
  datatype ScoringConfig = ScoringConfig(
    baseScore: Num,
    prScoreThreshold: Num,
    changeFileWeight: Num,
    additionWeight: Num,
    deletionWeight: Num,
    smallPrBonus: Num,
    largePrPenalty: Num,
    massivePrPenalty: Num,
    missingTestsPenalty: Num,
    flake8Penalty: Num,
    mypyPenalty: Num)

  /** `PRScoringConfig()`: each parameter from its variable, with its
      default when the variable is unset or unreadable. */
  function LoadConfig(env: Env, conv: Converters): (c: ScoringConfig)
    ensures "BASE_SCORE" !in env ==> c.baseScore == Int(100)
    ensures "PR_SCORE_THRESHOLD" !in env ==> c.prScoreThreshold == Int(70)
    ensures "CHANGE_FILE_WEIGHT" !in env ==> c.changeFileWeight == Int(3)
    ensures "ADDITION_WEIGHT" !in env ==> c.additionWeight == Float(0.2)
    ensures "DELETION_WEIGHT" !in env ==> c.deletionWeight == Float(0.1)
    ensures "SMALL_PR_BONUS" !in env ==> c.smallPrBonus == Int(5)
    ensures "LARGE_PR_PENALTY" !in env ==> c.largePrPenalty == Int(10)
    ensures "MASSIVE_PR_PENALTY" !in env ==> c.massivePrPenalty == Int(20)
    ensures "MISSING_TESTS_PENALTY" !in env ==> c.missingTestsPenalty == Int(10)
    ensures "FLAKE8_PENALTY" !in env ==> c.flake8Penalty == Int(5)
    ensures "MYPY_PENALTY" !in env ==> c.mypyPenalty == Int(3)
    ensures c.additionWeight.Float? && c.deletionWeight.Float?
    ensures c.baseScore.Int? && c.prScoreThreshold.Int? && c.changeFileWeight.Int?
    ensures c.baseScore == GetEnvVariable(env, "BASE_SCORE", Int(100), conv)
    ensures c.prScoreThreshold == GetEnvVariable(env, "PR_SCORE_THRESHOLD", Int(70), conv)
    ensures c.changeFileWeight == GetEnvVariable(env, "CHANGE_FILE_WEIGHT", Int(3), conv)
    ensures c.additionWeight == GetEnvVariable(env, "ADDITION_WEIGHT", Float(0.2), conv)
    ensures c.deletionWeight == GetEnvVariable(env, "DELETION_WEIGHT", Float(0.1), conv)
    ensures c.smallPrBonus == GetEnvVariable(env, "SMALL_PR_BONUS", Int(5), conv)
    ensures c.largePrPenalty == GetEnvVariable(env, "LARGE_PR_PENALTY", Int(10), conv)
    ensures c.massivePrPenalty == GetEnvVariable(env, "MASSIVE_PR_PENALTY", Int(20), conv)
    ensures c.missingTestsPenalty == GetEnvVariable(env, "MISSING_TESTS_PENALTY", Int(10), conv)
    ensures c.flake8Penalty == GetEnvVariable(env, "FLAKE8_PENALTY", Int(5), conv)
    ensures c.mypyPenalty == GetEnvVariable(env, "MYPY_PENALTY", Int(3), conv)
  {
    ScoringConfig(
      GetEnvVariable(env, "BASE_SCORE", Int(100), conv),
      GetEnvVariable(env, "PR_SCORE_THRESHOLD", Int(70), conv),
      GetEnvVariable(env, "CHANGE_FILE_WEIGHT", Int(3), conv),
      GetEnvVariable(env, "ADDITION_WEIGHT", Float(0.2), conv),
      GetEnvVariable(env, "DELETION_WEIGHT", Float(0.1), conv),
      GetEnvVariable(env, "SMALL_PR_BONUS", Int(5), conv),
      GetEnvVariable(env, "LARGE_PR_PENALTY", Int(10), conv),
      GetEnvVariable(env, "MASSIVE_PR_PENALTY", Int(20), conv),
      GetEnvVariable(env, "MISSING_TESTS_PENALTY", Int(10), conv),
      GetEnvVariable(env, "FLAKE8_PENALTY", Int(5), conv),
      GetEnvVariable(env, "MYPY_PENALTY", Int(3), conv))
  }

  /** A set variable reaches its field: PR_SCORE_THRESHOLD read as the
      integer `n` makes the threshold `n`, and text `int()` cannot read
      leaves the default 70. */
  lemma ThresholdFromEnvironment(env: Env, conv: Converters)
    requires "PR_SCORE_THRESHOLD" in env
    ensures conv.toInt(env["PR_SCORE_THRESHOLD"]).Some? ==>
              LoadConfig(env, conv).prScoreThreshold.AsReal() == conv.toInt(env["PR_SCORE_THRESHOLD"]).value as real
    ensures conv.toInt(env["PR_SCORE_THRESHOLD"]).None? ==> LoadConfig(env, conv).prScoreThreshold == Int(70)
  {
  }

  /** The configuration of an environment that sets none of the variables
      (the converters are then never called). */
  function Defaults(): (c: ScoringConfig)
    ensures c.baseScore.AsReal() == 100.0 && c.prScoreThreshold.AsReal() == 70.0
    ensures c.changeFileWeight.AsReal() == 3.0
    ensures c.additionWeight.AsReal() == 0.2 && c.deletionWeight.AsReal() == 0.1
  {
    LoadConfig(map[], Converters(_ => None, _ => None))
  }
}
