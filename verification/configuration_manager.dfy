/** The configuration manager: choosing the configuration file from the
    ENVIRONMENT variable, checking the shape of the parsed document, and the
    dotted-path lookup `get_value`. File-system probes and YAML parsing are
    inputs: whether the cgroup file opens, whether the configuration file
    exists, and what parsing it produced. */
module ConfigurationManager {
  import opened Exceptions
  import opened Strings

  /** A node of the parsed YAML document. */
  datatype Value =
    | Str(s: string)
    | Int(i: int)
    | Bool(b: bool)
    | Null
    | List(items: seq<Value>)
    | Dict(entries: map<string, Value>)

  /** `str(v)`. Scalars are rendered as Python renders them; the rendering of
      lists and dicts (Python's `repr`, which follows the dict's insertion
      order) is supplied by `containerStr`. */
  function PyStr(v: Value, containerStr: Value -> string): string
  {
    match v
    case Str(s) => s
    case Int(i) => IntToDecimal(i)
    case Bool(b) => if b then "True" else "False"
    case Null => "None"
    case List(_) => containerStr(v)
    case Dict(_) => containerStr(v)
  }

  /* ---------------- choosing the configuration file ---------------- */

  /** What `open("/proc/self/cgroup")` does: it opens, it raises
      FileNotFoundError, or it raises some other OSError. */
  datatype CgroupProbe = CgroupReadable | CgroupMissing | CgroupOpenFailed(message: string)

  /** The environment name after the container check: "local" becomes
      "local-docker" when the cgroup file opens; a missing cgroup file is
      ignored and any other failure to open it escapes. */
  function EffectiveEnvironment(environment: Option<string>, cgroup: CgroupProbe): (r: Result<Option<string>>)
    ensures r.Raise? <==> cgroup.CgroupOpenFailed?
    ensures cgroup.CgroupReadable? && environment == Some("local") ==> r == Ok(Some("local-docker"))
    ensures r.Ok? && r.value != environment ==>
      environment == Some("local") && r.value == Some("local-docker") && cgroup.CgroupReadable?
  {
    match cgroup
    case CgroupOpenFailed(m) => Raise(OtherError(m))
    case CgroupMissing => Ok(environment)
    case CgroupReadable => if environment == Some("local") then Ok(Some("local-docker")) else Ok(environment)
  }

  const LocalConfigurationFile := "../../shared/configuration.local.yaml"
  const InvalidEnvironmentMessage := "ENVIRONMENT variable is not set or invalid."

  /** The accepted environment names and their configuration files. */
  const ConfigurationFiles: map<string, string> := map[
    "local" := LocalConfigurationFile,
    "local-docker" := LocalConfigurationFile,
    "development" := "configuration.dev.yaml",
    "test" := "configuration.test.yaml",
    "production" := "configuration.prod.yaml"
  ]

  /** The `match` on the environment name: five names select a file, every
      other name and an unset variable raise ValueError. */
  function ConfigurationFileFor(environment: Option<string>): (r: Result<string>)
    ensures r.Ok? <==> environment.Some? && environment.value in ConfigurationFiles
    ensures r.Ok? ==> r.value == ConfigurationFiles[environment.value]
    ensures r.Raise? ==> r.exception == ValueError(InvalidEnvironmentMessage)
  {
    if environment.None? then Raise(ValueError(InvalidEnvironmentMessage))
    else
      match environment.value
      case "local" => Ok(LocalConfigurationFile)
      case "local-docker" => Ok(LocalConfigurationFile)
      case "development" => Ok("configuration.dev.yaml")
      case "test" => Ok("configuration.test.yaml")
      case "production" => Ok("configuration.prod.yaml")
      case _ => Raise(ValueError(InvalidEnvironmentMessage))
  }

  /** The container rewrite never changes which file is read. */
  lemma LocalRewriteKeepsFile(environment: Option<string>, cgroup: CgroupProbe)
    requires !cgroup.CgroupOpenFailed?
    ensures ConfigurationFileFor(EffectiveEnvironment(environment, cgroup).value) == ConfigurationFileFor(environment)
  {
  }

  /* ---------------- loading and shape check ---------------- */

  /** What opening and `yaml.safe_load`-ing an existing file produced. */
  datatype LoadOutcome =
    | Parsed(document: Value)
    | YamlError(message: string)
    /** any other exception inside the `try` (reading the file, say) */
    | ReadFailed(message: string)

  /** A configuration whose top level is a mapping. */
  datatype Configuration = Configuration(root: map<string, Value>)

  const UnexpectedErrorPrefix := "Unexpected error during ConfigurationManager initialization: "
  const NotADictionaryMessage := "Configuration must be a valid dictionary."

  /** The file checks of the constructor. A missing file raises
      FileNotFoundError; every later failure surfaces as ValueError, and the
      "not a dictionary" ValueError, raised inside the `try`, is caught by the
      generic handler and re-raised with its prefix. */
  function LoadConfiguration(file: string, isFile: bool, load: LoadOutcome): (r: Result<Configuration>)
    ensures r.Ok? <==> isFile && load.Parsed? && load.document.Dict?
    ensures r.Ok? ==> r.value.root == load.document.entries
    ensures !isFile ==> r.Raise? && r.exception.FileNotFoundError? && Contains(r.exception.message, file)
    ensures isFile && r.Raise? ==> r.exception.ValueError?
    ensures isFile && load.Parsed? && !load.document.Dict? ==>
      r == Raise(ValueError(UnexpectedErrorPrefix + NotADictionaryMessage))
  {
    if !isFile then
      ContainsMiddle("Configuration file '", file, "' not found.");
      Raise(FileNotFoundError("Configuration file '" + file + "' not found."))
    else
      match load
      case YamlError(m) => Raise(ValueError("Error parsing YAML file: " + m))
      case ReadFailed(m) => Raise(ValueError(UnexpectedErrorPrefix + m))
      case Parsed(document) =>
        if document.Dict? then Ok(Configuration(document.entries))
        else Raise(ValueError(UnexpectedErrorPrefix + NotADictionaryMessage))
  }

  /** `ConfigurationManager()`: pick the file, then load and check it. */
  function Initialize(environment: Option<string>, cgroup: CgroupProbe,
                      isFile: string -> bool, load: string -> LoadOutcome): (r: Result<Configuration>)
    ensures r.Ok? <==>
      && !cgroup.CgroupOpenFailed?
      && environment.Some? && environment.value in ConfigurationFiles
      && var file := ConfigurationFiles[environment.value];
         isFile(file) && load(file).Parsed? && load(file).document.Dict?
    ensures r.Ok? ==> r.value.root == load(ConfigurationFiles[environment.value]).document.entries
    ensures cgroup.CgroupOpenFailed? ==> r == Raise(OtherError(cgroup.message))
    ensures !cgroup.CgroupOpenFailed? && (environment.None? || environment.value !in ConfigurationFiles) ==>
      r == Raise(ValueError(InvalidEnvironmentMessage))
    ensures !cgroup.CgroupOpenFailed? && environment.Some? && environment.value in ConfigurationFiles &&
            !isFile(ConfigurationFiles[environment.value]) ==>
      r.Raise? && r.exception.FileNotFoundError? && Contains(r.exception.message, ConfigurationFiles[environment.value])
  {
    var effective :- EffectiveEnvironment(environment, cgroup);
    var file :- ConfigurationFileFor(effective);
    LoadConfiguration(file, isFile(file), load(file))
  }

  /* ---------------- get_value ---------------- */

  predicate IsKeyChar(c: char)
  {
    IsAsciiLower(c) || c == '-' || c == '_' || c == '.'
  }

  /** The keys `get_value` accepts: lowercase ASCII letters, '-', '_' and '.'. */
  predicate ValidKey(keys: string)
  {
    forall i :: 0 <= i < |keys| ==> IsKeyChar(keys[i])
  }

  /** The test as the source writes it, with Python's `str.islower` on one
      character given as `isLower`. */
  predicate SourceKeyTest(keys: string, isLower: char -> bool)
  {
    && (forall i :: 0 <= i < |keys| ==> isLower(keys[i]) || keys[i] in "-_.")
    && (forall i :: 0 <= i < |keys| ==> IsAscii(keys[i]))
  }

  /** Whatever `islower` does outside ASCII, the source's test accepts exactly
      the keys of the character class: the `isascii` conjunct rules out every
      non-ASCII character. Digits and upper-case letters are rejected. */
  lemma SourceKeyTestIsKeyClass(keys: string, isLower: char -> bool)
    requires forall c: char :: IsAscii(c) ==> (isLower(c) <==> IsAsciiLower(c))
    ensures SourceKeyTest(keys, isLower) <==> ValidKey(keys)
  {
    if SourceKeyTest(keys, isLower) {
      forall i | 0 <= i < |keys|
        ensures IsKeyChar(keys[i])
      {
        assert IsAscii(keys[i]);
      }
    }
    if ValidKey(keys) {
      forall i | 0 <= i < |keys|
        ensures isLower(keys[i]) || keys[i] in "-_."
      {
        assert IsKeyChar(keys[i]);
        assert IsAscii(keys[i]);
      }
    }
  }

  /** The descent of `get_value`: each segment selects one entry of the current
      level, which must be a dict holding that key. */
  function Walk(level: Value, path: seq<string>, containerStr: Value -> string): (r: Result<Value>)
    ensures r.Raise? ==> r.exception.KeyError?
    decreases |path|
  {
    if |path| == 0 then Ok(level)
    else if level.Dict? && path[0] in level.entries then Walk(level.entries[path[0]], path[1..], containerStr)
    else Raise(KeyError("Key '" + path[0] + "' not found in the configuration at level: " + PyStr(level, containerStr)))
  }

  /** Step `i` of a walk: the level reached by the first `i` segments is a
      dict holding segment `i`. */
  predicate StepFinds(level: Value, path: seq<string>, i: nat, containerStr: Value -> string)
    requires i < |path|
  {
    var w := Walk(level, path[..i], containerStr);
    w.Ok? && w.value.Dict? && path[i] in w.value.entries
  }

  /** A walk succeeds exactly when every step finds its segment. */
  lemma {:induction false} WalkSucceedsIff(level: Value, path: seq<string>, containerStr: Value -> string)
    ensures Walk(level, path, containerStr).Ok? <==>
            forall i :: 0 <= i < |path| ==> StepFinds(level, path, i, containerStr)
    decreases |path|
  {
    if |path| > 0 {
      assert path[..0] == [];
      if level.Dict? && path[0] in level.entries {
        var child := level.entries[path[0]];
        WalkSucceedsIff(child, path[1..], containerStr);
        forall i | 1 <= i < |path|
          ensures StepFinds(level, path, i, containerStr) == StepFinds(child, path[1..], i - 1, containerStr)
        {
          assert path[..i][0] == path[0];
          assert path[..i][1..] == path[1..][..i - 1];
          assert path[i] == path[1..][i - 1];
        }
        if forall i :: 0 <= i < |path| - 1 ==> StepFinds(child, path[1..], i, containerStr) {
          forall i | 0 <= i < |path|
            ensures StepFinds(level, path, i, containerStr)
          {
            if i > 0 {
              assert StepFinds(child, path[1..], i - 1, containerStr);
            }
          }
        }
        if forall i :: 0 <= i < |path| ==> StepFinds(level, path, i, containerStr) {
          forall i | 0 <= i < |path| - 1
            ensures StepFinds(child, path[1..], i, containerStr)
          {
            assert StepFinds(level, path, i + 1, containerStr);
          }
        }
      } else {
        assert !StepFinds(level, path, 0, containerStr);
      }
    }
  }

  /** Walking a concatenated path is walking the first part, then the rest
      from where it ended; a failure in the first part is final. */
  lemma {:induction false} WalkAppend(level: Value, p: seq<string>, q: seq<string>, containerStr: Value -> string)
    ensures Walk(level, p + q, containerStr) ==
      match Walk(level, p, containerStr)
      case Ok(v) => Walk(v, q, containerStr)
      case Raise(e) => Raise(e)
    decreases |p|
  {
    if |p| > 0 {
      assert (p + q)[0] == p[0];
      assert (p + q)[1..] == p[1..] + q;
      if level.Dict? && p[0] in level.entries {
        WalkAppend(level.entries[p[0]], p[1..], q, containerStr);
      }
    } else {
      assert p + q == q;
    }
  }

  /** The document holding `v` under the nested keys `path`. */
  function Nest(path: seq<string>, v: Value): Value
    decreases |path|
  {
    if |path| == 0 then v else Dict(map[path[0] := Nest(path[1..], v)])
  }

  /** Walking the path a value was nested under reaches that value. */
  lemma {:induction false} WalkNest(path: seq<string>, v: Value, containerStr: Value -> string)
    ensures Walk(Nest(path, v), path, containerStr) == Ok(v)
    decreases |path|
  {
    if |path| > 0 {
      WalkNest(path[1..], v, containerStr);
    }
  }

  const InvalidKeyMessage := "The string can only contain lowercase ASCII characters and dots."

  /** `get_value`: validate the key, split it on '.', walk down from the top
      level and render what was reached with `str`. */
  function GetValue(config: Configuration, keys: string, containerStr: Value -> string): (r: Result<string>)
    ensures !ValidKey(keys) ==> r == Raise(ValueError(InvalidKeyMessage))
    ensures ValidKey(keys) ==>
      var reached := Walk(Dict(config.root), Split(keys, '.'), containerStr);
      && (r.Ok? <==> reached.Ok?)
      && (r.Ok? ==> r.value == PyStr(reached.value, containerStr))
      && (r.Raise? ==> r.exception.KeyError?)
  {
    if !ValidKey(keys) then Raise(ValueError(InvalidKeyMessage))
    else
      var reached :- Walk(Dict(config.root), Split(keys, '.'), containerStr);
      Ok(PyStr(reached, containerStr))
  }

  /** A key holding a digit or an upper-case letter is rejected before any lookup. */
  lemma DigitOrUpperRejected(config: Configuration, keys: string, i: nat, containerStr: Value -> string)
    requires i < |keys| && (IsDigit(keys[i]) || 'A' <= keys[i] <= 'Z')
    ensures GetValue(config, keys, containerStr) == Raise(ValueError(InvalidKeyMessage))
  {
    assert !IsKeyChar(keys[i]);
  }

  /** Joining valid, dot-free segments with '.' gives a valid key. */
  lemma {:induction false} JoinValidKey(segments: seq<string>)
    requires forall i :: 0 <= i < |segments| ==> ValidKey(segments[i])
    ensures ValidKey(Join(segments, "."))
    decreases |segments|
  {
    if |segments| > 1 {
      JoinValidKey(segments[1..]);
      var rest := Join(segments[1..], ".");
      assert Join(segments, ".") == segments[0] + "." + rest;
      forall i | 0 <= i < |segments[0] + "." + rest|
        ensures IsKeyChar((segments[0] + "." + rest)[i])
      {
        if i < |segments[0]| {
          assert (segments[0] + "." + rest)[i] == segments[0][i];
        } else if i > |segments[0]| {
          assert (segments[0] + "." + rest)[i] == rest[i - |segments[0]| - 1];
        }
      }
    }
  }

  /** The dotted key built from a path of segments finds the value at the end
      of that path, rendered with `str`. */
  lemma {:induction false} GetValueAlongPath(config: Configuration, segments: seq<string>, v: Value, containerStr: Value -> string)
    requires |segments| >= 1
    requires forall i :: 0 <= i < |segments| ==> ValidKey(segments[i]) && '.' !in segments[i]
    requires Walk(Dict(config.root), segments, containerStr) == Ok(v)
    ensures GetValue(config, Join(segments, "."), containerStr) == Ok(PyStr(v, containerStr))
  {
    assert "." == ['.'];
    SplitJoin(segments, '.');
    JoinValidKey(segments);
  }

  /** A path that ends at a sub-dictionary is not an error: its `str` form is returned. */
  lemma SubDictionaryIsRendered(config: Configuration, keys: string, m: map<string, Value>, containerStr: Value -> string)
    requires ValidKey(keys)
    requires Walk(Dict(config.root), Split(keys, '.'), containerStr) == Ok(Dict(m))
    ensures GetValue(config, keys, containerStr) == Ok(containerStr(Dict(m)))
  {
  }
}
