/** Configuration loading: `${NAME}` environment substitution over a parsed
    YAML tree, and the merge of the optional `logging.yaml` and
    `modules.yaml` documents into the main configuration.  YAML parsing and
    file-system checks are outside the model: each file arrives as a
    `FileState`. */
module ConfigLoader {
  import opened Data

  type Env = map<string, string>

  /** The value of an environment variable; an unset one reads as "". */
  function Lookup(env: Env, name: string): string {
    if name in env then env[name] else ""
  }

  /** Index of the first occurrence of `c` in `s`, if any. */
  function FirstIndex(s: string, c: char): (r: Option<nat>)
    ensures r.Some? ==> r.value < |s| && s[r.value] == c
    ensures r.Some? ==> forall j :: 0 <= j < r.value ==> s[j] != c
    ensures r.None? ==> forall j :: 0 <= j < |s| ==> s[j] != c
  {
    if |s| == 0 then None
    else if s[0] == c then Some(0)
    else match FirstIndex(s[1..], c)
      case None => None
      case Some(k) => Some(k + 1)
  }

  /** A variable name the pattern `\$\{([^}]+)\}` accepts between the braces. */
  predicate ValidName(name: string) {
    name != [] && forall j :: 0 <= j < |name| ==> name[j] != '}'
  }

  /** Whether the pattern matches at the start of `s`, and if so the index of
      the closing brace.  `[^}]+` is greedy and cannot cross a brace, so the
      match closes at the first `}` after `${`, and needs a non-empty name. */
  function MatchEnd(s: string): (r: Option<nat>)
    ensures r.Some? ==> 3 <= r.value < |s| && s[..2] == "${" && s[r.value] == '}' && ValidName(s[2..r.value])
    ensures r.None? ==> forall j :: 2 < j < |s| && s[..2] == "${" && s[j] == '}' ==> !ValidName(s[2..j])
  {
    if |s| >= 2 && s[0] == '$' && s[1] == '{' then
      match FirstIndex(s[2..], '}')
      case None => None
      case Some(k) =>
        assert s[..2] == "${";
        if k == 0 then
          assert forall j :: 2 < j < |s| ==> s[2..j][0] == '}';
          None
        else
          assert forall i :: 0 <= i < k ==> s[2..k + 2][i] == s[2..][i];
          Some(k + 2)
    else None
  }

  /** `re.sub(r'\$\{([^}]+)\}', replace_env_var, s)`: a single left-to-right
      pass; replacement text is emitted as is and never rescanned. */
  function SubstituteString(s: string, env: Env): string
    decreases |s|
  {
    if s == [] then []
    else match MatchEnd(s)
      case Some(j) => Lookup(env, s[2..j]) + SubstituteString(s[j + 1..], env)
      case None => [s[0]] + SubstituteString(s[1..], env)
  }

  /** `_substitute_env_vars`: dictionaries and lists are rebuilt with every
      value substituted, strings go through `SubstituteString`, every other
      value is returned as it is.  Dictionary keys are not substituted. */
  function SubstituteEnvVars(v: Value, env: Env): Value {
    match v
    case Dict(m) => Dict(map k | k in m :: SubstituteEnvVars(m[k], env))
    case List(xs) => List(seq(|xs|, i requires 0 <= i < |xs| => SubstituteEnvVars(xs[i], env)))
    case Str(s) => Str(SubstituteString(s, env))
    case _ => v
  }

  // ---------------------------------------------------------------------
  // A reference description of substitution on well-formed templates.

  /** A piece of a template: literal text, or a `${name}` reference. */
  datatype Piece = Text(t: string) | Ref(name: string)

  /** Literal text that cannot start a reference within itself: no `$` in
      it is followed by `{`.  So "cost $5" and "US$" are literal text, while
      "${" is not. */
  predicate Literal(t: string) {
    forall j :: 0 <= j < |t| - 1 && t[j] == '$' ==> t[j + 1] != '{'
  }

  /** Text whose last character is `$`, which a following `{` would turn
      into the start of a reference. */
  predicate EndsInDollar(t: string) {
    |t| > 0 && t[|t| - 1] == '$'
  }

  predicate ValidPiece(p: Piece) {
    match p
    case Text(t) => Literal(t)
    case Ref(name) => ValidName(name)
  }

  /** The template's text. */
  function Render(ps: seq<Piece>): string {
    if ps == [] then []
    else (match ps[0] case Text(t) => t case Ref(n) => "${" + n + "}") + Render(ps[1..])
  }

  /** What the template should expand to: each reference replaced by the
      variable's value (or ""), literal text kept. */
  function Expand(ps: seq<Piece>, env: Env): string {
    if ps == [] then []
    else (match ps[0] case Text(t) => t case Ref(n) => Lookup(env, n)) + Expand(ps[1..], env)
  }

  /** A well-formed template: every piece is valid, and text ending in `$`
      is not followed by text that opens with `{` (together they would
      render as the start of a reference). */
  predicate WellFormed(ps: seq<Piece>) {
    ps == [] ||
    (ValidPiece(ps[0])
     && (ps[0].Text? && EndsInDollar(ps[0].t) ==> !(|Render(ps[1..])| > 0 && Render(ps[1..])[0] == '{'))
     && WellFormed(ps[1..]))
  }

  /** Literal text passes through unchanged, provided a trailing `$` is not
      followed by `{`. */
  lemma {:induction false} SubstituteText(t: string, rest: string, env: Env)
    requires Literal(t)
    requires EndsInDollar(t) ==> !(|rest| > 0 && rest[0] == '{')
    ensures SubstituteString(t + rest, env) == t + SubstituteString(rest, env)
  {
    if t != [] {
      var s := t + rest;
      assert s[0] == t[0];
      assert s[1..] == t[1..] + rest;
      assert MatchEnd(s).None? by {
        if t[0] == '$' && |s| >= 2 {
          if |t| >= 2 {
            assert s[1] == t[1] != '{';
          } else {
            assert s[1] == rest[0] != '{';
          }
        }
      }
      assert Literal(t[1..]) by {
        forall j | 0 <= j < |t[1..]| - 1 && t[1..][j] == '$' ensures t[1..][j + 1] != '{' {
          assert t[j + 1] == '$';
        }
      }
      assert EndsInDollar(t[1..]) ==> EndsInDollar(t) by {
        if |t[1..]| > 0 { assert t[1..][|t[1..]| - 1] == t[|t| - 1]; }
      }
      assert SubstituteString(s, env) == [t[0]] + SubstituteString(t[1..] + rest, env);
      SubstituteText(t[1..], rest, env);
      ConcatAssoc([t[0]], t[1..], SubstituteString(rest, env));
      assert [t[0]] + t[1..] == t;
    } else {
      ConcatEmpty(rest);
    }
  }

  lemma SubstituteRef(name: string, rest: string, env: Env)
    requires ValidName(name)
    ensures SubstituteString("${" + name + "}" + rest, env) == Lookup(env, name) + SubstituteString(rest, env)
  {
    var s := "${" + name + "}" + rest;
    var j := |name| + 2;
    assert s[2..] == name + "}" + rest;
    assert FirstIndex(s[2..], '}') == Some(|name|) by {
      var f := FirstIndex(s[2..], '}');
      assert (name + "}" + rest)[|name|] == '}';
      assert forall i :: 0 <= i < |name| ==> (name + "}" + rest)[i] == name[i];
    }
    assert MatchEnd(s) == Some(j);
    assert s[2..j] == name;
    assert s[j + 1..] == rest;
  }

  /** Substitution agrees with the reference expansion on every well-formed
      template: each `${NAME}` becomes the variable's value, or "" when it is
      unset, literal text (stray `$` included, as in "US$${AMOUNT}" or
      "costs 5$") is kept, and a value that itself contains `${...}` is not
      expanded again. */
  lemma {:induction false} SubstituteTemplate(ps: seq<Piece>, env: Env)
    requires WellFormed(ps)
    ensures SubstituteString(Render(ps), env) == Expand(ps, env)
  {
    if ps != [] {
      SubstituteTemplate(ps[1..], env);
      match ps[0]
      case Text(t) => SubstituteText(t, Render(ps[1..]), env);
      case Ref(n) =>
        assert Render(ps) == "${" + n + "}" + Render(ps[1..]);
        SubstituteRef(n, Render(ps[1..]), env);
    }
  }

  /** A single reference is replaced by the variable's value verbatim. */
  lemma SubstituteSingleRef(name: string, env: Env)
    requires ValidName(name)
    ensures SubstituteString("${" + name + "}", env) == Lookup(env, name)
  {
    SubstituteRef(name, "", env);
    assert "${" + name + "}" + "" == "${" + name + "}";
  }

  /** A string in which the pattern matches at no position is unchanged. */
  lemma {:induction false} SubstituteNoMatch(s: string, env: Env)
    requires forall j :: 0 <= j < |s| ==> MatchEnd(s[j..]).None?
    ensures SubstituteString(s, env) == s
  {
    if s != [] {
      assert MatchEnd(s[0..]).None?;
      assert s[0..] == s;
      forall j | 0 <= j < |s[1..]| ensures MatchEnd(s[1..][j..]).None? {
        assert s[1..][j..] == s[j + 1..];
      }
      SubstituteNoMatch(s[1..], env);
      assert s == [s[0]] + s[1..];
    }
  }

  /** A string without a closing brace can hold no match and is unchanged;
      this covers an unterminated `${X`. */
  lemma {:induction false} SubstituteNoBrace(s: string, env: Env)
    requires forall j :: 0 <= j < |s| ==> s[j] != '}'
    ensures SubstituteString(s, env) == s
  {
    if s != [] {
      assert MatchEnd(s).None?;
      SubstituteNoBrace(s[1..], env);
      assert s == [s[0]] + s[1..];
    }
  }

  /** A first character other than `$` cannot start a match: it is kept and
      the scan moves on by one. */
  lemma PlainHead(c: char, rest: string, env: Env)
    requires c != '$'
    ensures SubstituteString([c] + rest, env) == [c] + SubstituteString(rest, env)
  {
    var s := [c] + rest;
    assert s[0] == c && s[1..] == rest;
  }

  /** `${}` at the front is no match: the `$` is kept. */
  lemma EmptyNameHead(rest: string, env: Env)
    ensures SubstituteString("${}" + rest, env) == "$" + SubstituteString("{}" + rest, env)
  {
    var s := "${}" + rest;
    assert s[..2] == "${" && s[2..][0] == '}';
    assert FirstIndex(s[2..], '}') == Some(0);
    assert MatchEnd(s).None?;
    assert s[0] == '$' && s[1..] == "{}" + rest;
  }

  /** An empty name is not a match: `${}` stays as it is, whatever follows. */
  lemma SubstituteEmptyName(rest: string, env: Env)
    ensures SubstituteString("${}" + rest, env) == "${}" + SubstituteString(rest, env)
  {
    var r := SubstituteString(rest, env);
    var close := SubstituteString("}" + rest, env);
    var open := SubstituteString("{}" + rest, env);
    assert close == "}" + r by {
      assert "}" + rest == ['}'] + rest;
      PlainHead('}', rest, env);
    }
    assert open == "{" + close by {
      assert "{}" + rest == ['{'] + ("}" + rest);
      PlainHead('{', "}" + rest, env);
    }
    assert SubstituteString("${}" + rest, env) == "$" + open by {
      EmptyNameHead(rest, env);
    }
    Prefix3(r);
  }

  lemma Prefix3(r: string)
    ensures "$" + ("{" + ("}" + r)) == "${}" + r
  {
  }

  // ---------------------------------------------------------------------
  // The tree transform.

  /** `a` and `b` have the same structure: the same kind of node everywhere,
      dictionaries with the same keys, lists of the same length, and equal
      values wherever neither is a string. */
  predicate SameShape(a: Value, b: Value) {
    match a
    case Dict(m) => b.Dict? && m.Keys == b.entries.Keys && forall k :: k in m ==> SameShape(m[k], b.entries[k])
    case List(xs) => b.List? && |xs| == |b.items| && forall i :: 0 <= i < |xs| ==> SameShape(xs[i], b.items[i])
    case Str(_) => b.Str?
    case _ => a == b
  }

  /** Substitution keeps the shape of the tree: dictionaries keep their keys,
      lists their length, and non-string leaves their value. */
  lemma {:induction false} SubstitutePreservesShape(v: Value, env: Env)
    ensures SameShape(v, SubstituteEnvVars(v, env))
  {
    match v
    case Dict(m) =>
      forall k | k in m ensures SameShape(m[k], SubstituteEnvVars(v, env).entries[k]) {
        SubstitutePreservesShape(m[k], env);
      }
    case List(xs) =>
      forall i | 0 <= i < |xs| ensures SameShape(xs[i], SubstituteEnvVars(v, env).items[i]) {
        SubstitutePreservesShape(xs[i], env);
      }
    case _ =>
  }

  /** No string anywhere in the tree contains `{`. */
  predicate NoOpenBrace(v: Value) {
    match v
    case Dict(m) => forall k :: k in m ==> NoOpenBrace(m[k])
    case List(xs) => forall i :: 0 <= i < |xs| ==> NoOpenBrace(xs[i])
    case Str(s) => forall j :: 0 <= j < |s| ==> s[j] != '{'
    case _ => true
  }

  lemma {:induction false} SubstituteNoOpenBrace(s: string, env: Env)
    requires forall j :: 0 <= j < |s| ==> s[j] != '{'
    ensures SubstituteString(s, env) == s
  {
    if s != [] {
      assert MatchEnd(s).None? by {
        if |s| >= 2 { assert s[1] != '{'; }
      }
      SubstituteNoOpenBrace(s[1..], env);
      assert s == [s[0]] + s[1..];
    }
  }

  /** A tree in which no `${` can occur comes back unchanged. */
  lemma {:induction false} SubstituteIdentity(v: Value, env: Env)
    requires NoOpenBrace(v)
    ensures SubstituteEnvVars(v, env) == v
  {
    match v
    case Dict(m) =>
      forall k | k in m ensures SubstituteEnvVars(m[k], env) == m[k] {
        SubstituteIdentity(m[k], env);
      }
      assert (map k | k in m :: SubstituteEnvVars(m[k], env)) == m;
    case List(xs) =>
      forall i | 0 <= i < |xs| ensures SubstituteEnvVars(xs[i], env) == xs[i] {
        SubstituteIdentity(xs[i], env);
      }
      assert seq(|xs|, i requires 0 <= i < |xs| => SubstituteEnvVars(xs[i], env)) == xs;
    case Str(s) => SubstituteNoOpenBrace(s, env);
    case _ =>
  }

  // ---------------------------------------------------------------------
  // Loading and merging the configuration files.

  /** What reading one YAML file gives: it does not exist, it cannot be read
      or parsed, or it parsed to a document. */
  datatype FileState = Absent | Unreadable | Parsed(document: Value)

  datatype ConfigError =
    | DirectoryNotFound
    | FileNotFound(file: string)
    | InvalidYaml(file: string)

  const MainFile := "main.yaml"

  /** `load_yaml_config` once the file is parsed: an empty document (YAML
      null) becomes `{}`, anything else is substituted. */
  function LoadYaml(document: Value, env: Env): (r: Value)
    ensures document.Null? ==> r == Dict(map[])
    ensures !document.Null? ==> SameShape(document, r)
    ensures !document.Null? ==> r == SubstituteEnvVars(document, env)
  {
    if document.Null? then Dict(map[])
    else
      SubstitutePreservesShape(document, env);
      SubstituteEnvVars(document, env)
  }

  /** `load_yaml_config` on a file. */
  function LoadYamlFile(f: FileState, file: string, env: Env): (r: Result<Value, ConfigError>)
    ensures f.Absent? ==> r == Err(FileNotFound(file))
    ensures f.Unreadable? ==> r == Err(InvalidYaml(file))
    ensures f.Parsed? ==> r == Ok(LoadYaml(f.document, env))
  {
    match f
    case Absent => Err(FileNotFound(file))
    case Unreadable => Err(InvalidYaml(file))
    case Parsed(d) => Ok(LoadYaml(d, env))
  }

  /** The document of an optional file, or None when it is missing or its
      loading raised (the error is logged and the file skipped). */
  function OptionalDocument(f: FileState, env: Env): Option<Value> {
    match f
    case Parsed(d) => Some(LoadYaml(d, env))
    case _ => None
  }

  /** The `logging` merge: the document's `logging` entry replaces the
      configuration's.  Any other shape raises inside the `try` and leaves the
      configuration as it was. */
  function MergedLogging(config: Value, doc: Option<Value>): Value {
    if config.Dict? && doc.Some? && doc.value.Dict? && "logging" in doc.value.entries
    then Dict(config.entries["logging" := doc.value.entries["logging"]])
    else config
  }

  /** The `modules` merge: `config['modules']` is created as `{}` when absent,
      then every top-level entry of the document overwrites it.  When the
      document is not a dictionary (`.items()` raises) the created `{}` stays;
      when the section is not a dictionary the first assignment raises and
      nothing changes. */
  function MergedModules(config: Value, doc: Option<Value>): Value {
    if !config.Dict? || doc.None? then config
    else
      var c := if "modules" in config.entries then config.entries
               else config.entries["modules" := Dict(map[])];
      if !doc.value.Dict? || doc.value.entries == map[] then Dict(c)
      else match c["modules"]
        case Dict(t) => Dict(c["modules" := Dict(t + doc.value.entries)])
        case _ => Dict(c)
  }

  /** Only the `logging` entry can change, and it becomes the document's
      entry exactly when the document has one. */
  lemma MergedLoggingSpec(config: map<string, Value>, doc: Option<Value>)
    ensures MergedLogging(Dict(config), doc).Dict?
    ensures MergedLogging(Dict(config), doc).entries - {"logging"} == config - {"logging"}
    ensures doc.Some? && doc.value.Dict? && "logging" in doc.value.entries ==>
              MergedLogging(Dict(config), doc).entries["logging"] == doc.value.entries["logging"]
    ensures !(doc.Some? && doc.value.Dict? && "logging" in doc.value.entries) ==>
              MergedLogging(Dict(config), doc) == Dict(config)
  {
  }

  /** Keys other than `modules` are untouched; `modules` always exists after
      a merge with a document; a dictionary section receives every entry of a
      dictionary document, the document's values winning, and keeps every
      entry the document does not mention. */
  lemma MergedModulesSpec(config: map<string, Value>, doc: Value)
    ensures MergedModules(Dict(config), Some(doc)).Dict?
    ensures MergedModules(Dict(config), Some(doc)).entries - {"modules"} == config - {"modules"}
    ensures "modules" in MergedModules(Dict(config), Some(doc)).entries
    ensures ("modules" !in config || config["modules"].Dict?) && doc.Dict? ==>
              var section := MergedModules(Dict(config), Some(doc)).entries["modules"];
              && section.Dict?
              && section.entries.Keys == (if "modules" in config then config["modules"].entries.Keys else {}) + doc.entries.Keys
              && (forall k :: k in doc.entries ==> section.entries[k] == doc.entries[k])
              && ("modules" in config ==> forall k :: k in config["modules"].entries && k !in doc.entries ==>
                                            section.entries[k] == config["modules"].entries[k])
  {
    var r := MergedModules(Dict(config), Some(doc));
    var c := if "modules" in config then config else config["modules" := Dict(map[])];
    assert r.entries - {"modules"} == c - {"modules"} == config - {"modules"};
  }

  /** The loop of `load_all_configs` that copies every top-level entry of the
      modules document into `config['modules']`. */
  method MergeModules(config: Value, doc: Option<Value>) returns (r: Value)
    ensures r == MergedModules(config, doc)
  {
    if !config.Dict? || doc.None? {
      return config;
    }
    var c := config.entries;
    if "modules" !in c {
      c := c["modules" := Dict(map[])];
    }
    if !doc.value.Dict? || doc.value.entries == map[] || !c["modules"].Dict? {
      return Dict(c);
    }
    var m := doc.value.entries;
    var section := c["modules"].entries;
    var pending := m.Keys;
    while pending != {}
      invariant pending <= m.Keys
      invariant section.Keys == c["modules"].entries.Keys + (m.Keys - pending)
      invariant forall k :: k in section ==>
                  section[k] == if k in m && k !in pending then m[k] else c["modules"].entries[k]
      decreases pending
    {
      var k :| k in pending;
      section := section[k := m[k]];
      pending := pending - {k};
    }
    assert section == c["modules"].entries + m;
    r := Dict(c["modules" := Dict(section)]);
  }

  /** `load_all_configs`: the directory and `main.yaml` are required; the two
      optional files are merged when they load and skipped otherwise. */
  method LoadAllConfigs(dirExists: bool, main: FileState, logging: FileState, modules: FileState, env: Env)
    returns (r: Result<Value, ConfigError>)
    ensures !dirExists ==> r == Err(DirectoryNotFound)
    ensures dirExists && main.Absent? ==> r == Err(FileNotFound(MainFile))
    ensures dirExists && main.Unreadable? ==> r == Err(InvalidYaml(MainFile))
    ensures dirExists && main.Parsed? ==>
              r == Ok(MergedModules(MergedLogging(LoadYaml(main.document, env), OptionalDocument(logging, env)),
                                    OptionalDocument(modules, env)))
  {
    if !dirExists {
      return Err(DirectoryNotFound);
    }
    var loaded := LoadYamlFile(main, MainFile, env);
    if loaded.Err? {
      return Err(loaded.error);
    }
    var config := loaded.value;
    config := MergedLogging(config, OptionalDocument(logging, env));
    config := MergeModules(config, OptionalDocument(modules, env));
    r := Ok(config);
  }

  /** When neither optional file loads, the result is the main document as
      loaded. */
  lemma OptionalFilesSkipped(main: Value, logging: FileState, modules: FileState, env: Env)
    requires !logging.Parsed? && !modules.Parsed?
    ensures MergedModules(MergedLogging(LoadYaml(main, env), OptionalDocument(logging, env)),
                          OptionalDocument(modules, env)) == LoadYaml(main, env)
  {
  }
}
