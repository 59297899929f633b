/** Parsing of the connector's raw configuration (a string-to-string map)
    into the settings the streaming source uses. */
module SourceConfig {
  import opened Wrappers

  const KeyEnvironment := "environment"
  const KeyClientID := "clientId"
  const KeyClientSecret := "clientSecret"
  const KeyUsername := "username"
  const KeyPassword := "password"
  const KeySecurityToken := "securityToken"
  const KeyPushTopicsNames := "pushTopicsNames"
  const KeyKeyField := "keyField"

  /** The required keys, in the order they are checked. */
  const RequiredKeys: seq<string> :=
    [KeyEnvironment, KeyClientID, KeyClientSecret, KeyUsername, KeyPassword, KeyPushTopicsNames]

  /** Every key the parser reads; all others are ignored. */
  const KnownKeys: set<string> :=
    {KeyEnvironment, KeyClientID, KeyClientSecret, KeyUsername, KeyPassword,
     KeySecurityToken, KeyPushTopicsNames, KeyKeyField}

  /** The separator of the topic-name list. */
  const Separator := ','

  datatype Config = Config(
    environment: string,
    clientID: string,
    clientSecret: string,
    username: string,
    password: string,
    securityToken: string,
    pushTopicsNames: seq<string>,
    keyField: string)

  /** A required value that was not set. */
  datatype ConfigError = MissingValue(key: string)

  /** The message of a configuration error: the key in double quotes (every
      key is plain ASCII, so quoting adds no escapes) and a fixed phrase. */
  function ErrorText(e: ConfigError): string
  {
    "\"" + e.key + MessageTail
  }

  const MessageTail := "\" config value must be set"

  /** The message names its key: the key can be read back between the
      opening quote and the fixed tail. */
  lemma ErrorTextNamesKey(e: ConfigError)
    ensures |ErrorText(e)| == |e.key| + |MessageTail| + 1
    ensures ErrorText(e)[0] == '"'
    ensures ErrorText(e)[1..|e.key| + 1] == e.key
    ensures ErrorText(e)[|e.key| + 1..] == MessageTail
  {
    var text := ErrorText(e);
    assert text == ["\""[0]] + e.key + MessageTail;
  }

  /** The value stored under `key`, or the empty string when it is absent. */
  function Get(raw: map<string, string>, key: string): (v: string)
    ensures key in raw ==> v == raw[key]
    ensures key !in raw ==> v == ""
  {
    if key in raw then raw[key] else ""
  }

  // ---------------------------------------------------------------------------
  // Topic names: split on commas, drop empty names, drop repeated names.

  /** The pieces between separators, like Go's `strings.Split`: there is
      always at least one piece, and "" gives [""]. */
  function Split(s: string): (parts: seq<string>)
    ensures |parts| >= 1
  {
    if s == [] then [""]
    else
      var rest := Split(s[1..]);
      if s[0] == Separator then [""] + rest
      else [[s[0]] + rest[0]] + rest[1..]
  }

  /** The pieces glued back together with separators. */
  function Join(parts: seq<string>): (s: string)
    requires |parts| >= 1
  {
    if |parts| == 1 then parts[0] else parts[0] + [Separator] + Join(parts[1..])
  }

  predicate NoSeparator(part: string)
  {
    forall i :: 0 <= i < |part| ==> part[i] != Separator
  }

  /** Splitting loses nothing: joining the pieces gives back the input. */
  lemma {:induction false} JoinSplit(s: string)
    ensures Join(Split(s)) == s
  {
    if s != [] {
      JoinSplit(s[1..]);
      var rest := Split(s[1..]);
      if s[0] == Separator {
        assert Split(s) == [""] + rest;
        assert Split(s)[1..] == rest;
      } else {
        var parts := Split(s);
        assert parts == [[s[0]] + rest[0]] + rest[1..];
        if |rest| == 1 {
          assert parts == [[s[0]] + rest[0]];
        } else {
          assert parts[1..] == rest[1..];
          assert rest == [rest[0]] + rest[1..];
          assert Join(rest) == rest[0] + [Separator] + Join(rest[1..]);
        }
      }
    }
  }

  /** No piece contains a separator. */
  lemma {:induction false} SplitPiecesHaveNoSeparator(s: string)
    ensures forall k :: 0 <= k < |Split(s)| ==> NoSeparator(Split(s)[k])
  {
    if s != [] {
      SplitPiecesHaveNoSeparator(s[1..]);
      var rest := Split(s[1..]);
      if s[0] != Separator {
        var head := [s[0]] + rest[0];
        assert NoSeparator(rest[0]);
        assert NoSeparator(head) by {
          forall i | 0 <= i < |head| ensures head[i] != Separator {
            if i > 0 { assert head[i] == rest[0][i - 1]; }
          }
        }
      }
    }
  }

  /** Splitting recovers pieces that were joined, so `Split` and `Join` are
      inverse on pieces without separators. */
  lemma {:induction false} SplitJoin(parts: seq<string>)
    requires |parts| >= 1
    requires forall k :: 0 <= k < |parts| ==> NoSeparator(parts[k])
    ensures Split(Join(parts)) == parts
  {
    if |parts| == 1 {
      SplitNoSeparator(parts[0]);
    } else {
      SplitJoin(parts[1..]);
      SplitAppend(parts[0], Join(parts[1..]));
      assert parts == [parts[0]] + parts[1..];
    }
  }

  /** A string without separators is a single piece. */
  lemma {:induction false} SplitNoSeparator(w: string)
    requires NoSeparator(w)
    ensures Split(w) == [w]
  {
    if w != [] {
      SplitNoSeparator(w[1..]);
      assert [w[0]] + w[1..] == w;
    }
  }

  /** Splitting `w` + "," + `t`, with no separator in `w`, yields `w`
      followed by the pieces of `t`. */
  lemma {:induction false} SplitAppend(w: string, t: string)
    requires NoSeparator(w)
    ensures Split(w + [Separator] + t) == [w] + Split(t)
  {
    var s := w + [Separator] + t;
    if w == [] {
      assert s == [Separator] + t;
      assert s[1..] == t;
    } else {
      assert s[1..] == w[1..] + [Separator] + t;
      SplitAppend(w[1..], t);
      assert [w[0]] + w[1..] == w;
    }
  }

  /** The non-empty pieces, in order. */
  function NonEmptyNames(parts: seq<string>): (names: seq<string>)
    ensures forall n :: n in names <==> n in parts && n != ""
  {
    if parts == [] then []
    else if parts[0] == "" then NonEmptyNames(parts[1..])
    else [parts[0]] + NonEmptyNames(parts[1..])
  }

  predicate NoDuplicates(xs: seq<string>)
  {
    forall i, j :: 0 <= i < j < |xs| ==> xs[i] != xs[j]
  }

  /** Each name once, at the place of its first occurrence. */
  function Dedup(xs: seq<string>): (r: seq<string>)
    ensures forall n :: n in r <==> n in xs
    ensures NoDuplicates(r)
  {
    DedupFrom(xs, {})
  }

  /** The names of `xs` not in `seen`, each once, at the place of its first
      occurrence. */
  function DedupFrom(xs: seq<string>, seen: set<string>): (r: seq<string>)
    ensures forall n :: n in r <==> n in xs && n !in seen
    ensures NoDuplicates(r)
  {
    if xs == [] then []
    else if xs[0] in seen then DedupFrom(xs[1..], seen)
    else [xs[0]] + DedupFrom(xs[1..], seen + {xs[0]})
  }

  /** The topic names listed in the raw value. */
  function Topics(raw: string): (names: seq<string>)
  {
    Dedup(NonEmptyNames(Split(raw)))
  }

  /** The topic list holds each non-empty piece of the raw value exactly
      once, and nothing else. */
  lemma TopicsSpec(raw: string)
    ensures NoDuplicates(Topics(raw))
    ensures forall n :: n in Topics(raw) <==> n != "" && n in Split(raw)
    ensures forall n :: n in Topics(raw) ==> NoSeparator(n)
  {
    SplitPiecesHaveNoSeparator(raw);
  }

  predicate OnlySeparatorChars(s: string)
  {
    forall i :: 0 <= i < |s| ==> s[i] == Separator
  }

  predicate AllEmpty(parts: seq<string>)
  {
    forall k :: 0 <= k < |parts| ==> parts[k] == ""
  }

  /** A value made of separators only splits into empty pieces, and
      conversely. */
  lemma {:induction false} OnlySeparators(s: string)
    ensures OnlySeparatorChars(s) <==> AllEmpty(Split(s))
  {
    if s == [] {
      assert Split(s) == [""];
    } else {
      OnlySeparators(s[1..]);
      var rest := Split(s[1..]);
      var parts := Split(s);
      if s[0] == Separator {
        assert parts == [""] + rest;
        assert OnlySeparatorChars(s) <==> OnlySeparatorChars(s[1..]) by {
          if OnlySeparatorChars(s[1..]) {
            forall i | 0 <= i < |s| ensures s[i] == Separator {
              if i > 0 { assert s[i] == s[1..][i - 1]; }
            }
          }
          if OnlySeparatorChars(s) {
            forall i | 0 <= i < |s[1..]| ensures s[1..][i] == Separator {
              assert s[1..][i] == s[i + 1];
            }
          }
        }
        assert AllEmpty(parts) <==> AllEmpty(rest) by {
          if AllEmpty(rest) {
            forall k | 0 <= k < |parts| ensures parts[k] == "" {
              if k > 0 { assert parts[k] == rest[k - 1]; }
            }
          }
          if AllEmpty(parts) {
            forall k | 0 <= k < |rest| ensures rest[k] == "" {
              assert rest[k] == parts[k + 1];
            }
          }
        }
      } else {
        assert parts[0] == [s[0]] + rest[0];
        assert !AllEmpty(parts) && !OnlySeparatorChars(s);
      }
    }
  }

  /** The topic list is empty exactly when the raw value consists of
      separators only, the empty value included. */
  lemma {:induction false} NoTopicsIffOnlySeparators(raw: string)
    ensures Topics(raw) == [] <==> OnlySeparatorChars(raw)
  {
    OnlySeparators(raw);
    var parts := Split(raw);
    if Topics(raw) == [] {
      forall k | 0 <= k < |parts| ensures parts[k] == "" {
        assert parts[k] in parts;
      }
    } else {
      var n := Topics(raw)[0];
      assert n in Topics(raw);
      assert n != "" && n in parts;
    }
  }

  /** A single name without separators is the whole topic list. */
  lemma SingleTopic(name: string)
    requires name != "" && NoSeparator(name)
    ensures Topics(name) == [name]
  {
    SplitNoSeparator(name);
    assert NonEmptyNames([name]) == [name];
    assert [name][..0] == [];
    assert DedupFrom([name], {}) == [name] by { assert [name][1..] == []; }
  }

  // ---------------------------------------------------------------------------
  // The parser.

  /** Whether a required key counts as set: a non-empty value, and for the
      topic list at least one non-empty name. */
  predicate Provided(raw: map<string, string>, key: string)
  {
    if key == KeyPushTopicsNames then Topics(Get(raw, key)) != [] else Get(raw, key) != ""
  }

  /** The configuration, or an error naming the first required key that is
      not set. Optional values are copied through, absent ones as "". */
  function ParseConfig(raw: map<string, string>): (r: Result<Config, ConfigError>)
    ensures r.Failure? ==> r.error.key in RequiredKeys && !Provided(raw, r.error.key)
    ensures r.Success? ==>
      && r.value.environment == Get(raw, KeyEnvironment)
      && r.value.clientID == Get(raw, KeyClientID)
      && r.value.clientSecret == Get(raw, KeyClientSecret)
      && r.value.username == Get(raw, KeyUsername)
      && r.value.password == Get(raw, KeyPassword)
      && r.value.securityToken == Get(raw, KeySecurityToken)
      && r.value.keyField == Get(raw, KeyKeyField)
      && r.value.pushTopicsNames == Topics(Get(raw, KeyPushTopicsNames))
      && r.value.pushTopicsNames != []
  {
    var topics := Topics(Get(raw, KeyPushTopicsNames));
    if Get(raw, KeyEnvironment) == "" then Failure(MissingValue(KeyEnvironment))
    else if Get(raw, KeyClientID) == "" then Failure(MissingValue(KeyClientID))
    else if Get(raw, KeyClientSecret) == "" then Failure(MissingValue(KeyClientSecret))
    else if Get(raw, KeyUsername) == "" then Failure(MissingValue(KeyUsername))
    else if Get(raw, KeyPassword) == "" then Failure(MissingValue(KeyPassword))
    else if topics == [] then Failure(MissingValue(KeyPushTopicsNames))
    else
      Success(Config(
        Get(raw, KeyEnvironment),
        Get(raw, KeyClientID),
        Get(raw, KeyClientSecret),
        Get(raw, KeyUsername),
        Get(raw, KeyPassword),
        Get(raw, KeySecurityToken),
        topics,
        Get(raw, KeyKeyField)))
  }

  /** Parsing fails exactly when some required key is not set, and then it
      names the first such key in the order of `RequiredKeys`. */
  lemma FirstMissingReported(raw: map<string, string>)
    ensures ParseConfig(raw).Success? <==>
      forall i :: 0 <= i < |RequiredKeys| ==> Provided(raw, RequiredKeys[i])
    ensures ParseConfig(raw).Failure? ==>
      exists i :: 0 <= i < |RequiredKeys| && ParseConfig(raw).error == MissingValue(RequiredKeys[i]) &&
        forall j :: 0 <= j < i ==> Provided(raw, RequiredKeys[j])
  {
  }

  /** Keys outside the known set change nothing, whatever their value. */
  lemma UnknownKeyIgnored(raw: map<string, string>, key: string, value: string)
    requires key !in KnownKeys
    ensures ParseConfig(raw[key := value]) == ParseConfig(raw)
  {
    forall k | k in KnownKeys ensures Get(raw[key := value], k) == Get(raw, k) {
    }
  }

  /** On success the topic list holds each non-empty name of the raw value
      once and nothing else. */
  lemma ParsedTopics(raw: map<string, string>)
    requires ParseConfig(raw).Success?
    ensures var names := ParseConfig(raw).value.pushTopicsNames;
      && names != []
      && NoDuplicates(names)
      && forall n :: n in names <==> n != "" && n in Split(Get(raw, KeyPushTopicsNames))
  {
    TopicsSpec(Get(raw, KeyPushTopicsNames));
  }

  /** A topic value made of separators only is reported as a missing topic
      list once everything before it is set. */
  lemma SeparatorsOnlyIsMissing(raw: map<string, string>)
    requires Get(raw, KeyEnvironment) != "" && Get(raw, KeyClientID) != ""
    requires Get(raw, KeyClientSecret) != "" && Get(raw, KeyUsername) != ""
    requires Get(raw, KeyPassword) != ""
    requires OnlySeparatorChars(Get(raw, KeyPushTopicsNames))
    ensures ParseConfig(raw) == Failure(MissingValue(KeyPushTopicsNames))
  {
    NoTopicsIffOnlySeparators(Get(raw, KeyPushTopicsNames));
  }

  /** The list `a,b,a,c,a` keeps `a`, `b` and `c` once each, in the order of
      their first occurrence. */
  lemma {:induction false} RepeatsRemoved(a: string, b: string, c: string)
    requires a != "" && b != "" && c != ""
    requires NoSeparator(a) && NoSeparator(b) && NoSeparator(c)
    requires a != b && a != c && b != c
    ensures Topics(Join([a, b, a, c, a])) == [a, b, c]
  {
    var parts := [a, b, a, c, a];
    SplitJoin(parts);
    NonEmptyKept(parts);
    RepeatsDeduped(a, b, c);
  }

  /** Removing the repeats of [a, b, a, c, a] keeps the first three names. */
  lemma RepeatsDeduped(a: string, b: string, c: string)
    requires a != b && a != c && b != c
    ensures Dedup([a, b, a, c, a]) == [a, b, c]
  {
    assert DedupFrom([a], {a, b, c}) == [] by {
      assert [a][1..] == [];
    }
    assert DedupFrom([c, a], {a, b}) == [c] by {
      assert [c, a][1..] == [a] && {a, b} + {c} == {a, b, c};
    }
    assert DedupFrom([a, c, a], {a, b}) == [c] by {
      assert [a, c, a][1..] == [c, a];
    }
    assert DedupFrom([b, a, c, a], {a}) == [b, c] by {
      assert [b, a, c, a][1..] == [a, c, a] && {a} + {b} == {a, b};
    }
    assert DedupFrom([a, b, a, c, a], {}) == [a, b, c] by {
      assert [a, b, a, c, a][1..] == [b, a, c, a] && {} + {a} == {a};
    }
  }

  /** A list of non-empty names loses nothing to the empty-name filter. */
  lemma {:induction false} NonEmptyKept(parts: seq<string>)
    requires forall k :: 0 <= k < |parts| ==> parts[k] != ""
    ensures NonEmptyNames(parts) == parts
  {
    if parts != [] {
      NonEmptyKept(parts[1..]);
      assert parts == [parts[0]] + parts[1..];
    }
  }

  /** The duplicated list of the configuration tests keeps Foo, Bar and Baz,
      each once. */
  lemma DuplicatesRemoved()
    ensures Topics("Foo,Bar,Foo,Baz,Foo") == ["Foo", "Bar", "Baz"]
    ensures multiset(Topics("Foo,Bar,Foo,Baz,Foo")) == multiset{"Foo", "Bar", "Baz"}
  {
    var foo, bar, baz := "Foo", "Bar", "Baz";
    assert foo != bar && foo != baz by { assert foo[0] != bar[0] && foo[0] != baz[0]; }
    assert bar != baz by { assert bar[2] != baz[2]; }
    RepeatsRemoved(foo, bar, baz);
    ExampleJoin();
  }

  /** The raw value of the duplicated list is the five names joined. */
  lemma ExampleJoin()
    ensures Join(["Foo", "Bar", "Foo", "Baz", "Foo"]) == "Foo,Bar,Foo,Baz,Foo"
  {
  }

  /** A raw map whose environment value is absent or empty fails on the
      environment, the first required key, whatever else it holds. */
  lemma EnvironmentFirst(raw: map<string, string>)
    requires Get(raw, KeyEnvironment) == ""
    ensures ParseConfig(raw) == Failure(MissingValue(KeyEnvironment))
  {
  }
}
