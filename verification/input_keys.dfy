/**
 * The Key<T> class of SMASH's input keys (input_keys.h): a key of the YAML
 * input file, identified by its labels, with an optional default value and
 * the versions in which it was introduced, deprecated and removed.
 *
 * The string utilities join and quote live in code that is not part of this
 * model; they are defined here by the behaviour their tests fix.
 */
module InputKeys {
  import opened Outcomes

  /** A SMASH version number, as written (std::string_view). */
  type Version = string

  /**
   * A key. Its fields are only built by MakeKey, so that a removal version
   * never comes without a deprecation version.
   */
  datatype Key<T> = Key(
    labels: seq<string>,
    default: Option<T>,
    introducedIn: Version,
    deprecatedIn: Option<Version>,
    removedIn: Option<Version>)

  datatype KeyError = WrongNumberOfVersions | BadOptionalAccess

  /**
   * The Key constructor: one, two or three versions set, in this order, the
   * versions of introduction, deprecation and removal (the fall-through
   * switch); any other number of versions is an error.
   */
  function MakeKey<T>(labels: seq<string>, value: Option<T>, versions: seq<Version>): (r: Result<Key<T>, KeyError>)
    ensures r.Err? <==> !(1 <= |versions| <= 3)
    ensures r.Ok? ==> r.value.labels == labels && r.value.default == value
  {
    if |versions| == 3 then Ok(Key(labels, value, versions[0], Some(versions[1]), Some(versions[2])))
    else if |versions| == 2 then Ok(Key(labels, value, versions[0], Some(versions[1]), None))
    else if |versions| == 1 then Ok(Key(labels, value, versions[0], None, None))
    else Err(WrongNumberOfVersions)
  }

  /** The version list a key was built from. */
  function Versions<T>(k: Key<T>): seq<Version>
  {
    [k.introducedIn]
    + (if k.deprecatedIn.Some? then [k.deprecatedIn.value] else [])
    + (if k.removedIn.Some? then [k.removedIn.value] else [])
  }

  /** The versions a key is built from are recovered from it, and a removed key is always deprecated. */
  lemma MakeKeyVersions<T>(labels: seq<string>, value: Option<T>, versions: seq<Version>)
    requires 1 <= |versions| <= 3
    ensures var k := MakeKey(labels, value, versions).value;
      && Versions(k) == versions
      && (k.removedIn.Some? ==> k.deprecatedIn.Some?)
  {
    var k := MakeKey(labels, value, versions).value;
    if |versions| == 3 {
      assert Versions(k) == [versions[0]] + [versions[1]] + [versions[2]];
    } else if |versions| == 2 {
      assert Versions(k) == [versions[0]] + [versions[1]] + [];
    } else {
      assert Versions(k) == [versions[0]] + [] + [];
    }
  }

  /** Key::is_deprecated */
  predicate IsDeprecated<T>(k: Key<T>) { k.deprecatedIn.Some? }

  /** Key::is_allowed */
  predicate IsAllowed<T>(k: Key<T>) { k.removedIn.None? }

  /** Key::introduced_in */
  function IntroducedIn<T>(k: Key<T>): Version { k.introducedIn }

  /** The value of an optional, or bad_optional_access. */
  function ValueOf<U>(o: Option<U>): Result<U, KeyError>
  {
    if o.Some? then Ok(o.value) else Err(BadOptionalAccess)
  }

  /** Key::default_value */
  function DefaultValue<T>(k: Key<T>): Result<T, KeyError> { ValueOf(k.default) }

  /** Key::deprecated_in */
  function DeprecatedIn<T>(k: Key<T>): Result<Version, KeyError> { ValueOf(k.deprecatedIn) }

  /** Key::removed_in */
  function RemovedIn<T>(k: Key<T>): Result<Version, KeyError> { ValueOf(k.removedIn) }

  /**
   * For a key built from a version list: it is deprecated exactly when two or
   * more versions were given and allowed exactly when fewer than three were;
   * deprecated_in and removed_in fail exactly then and otherwise return the
   * second and third version; default_value fails exactly without a default.
   */
  lemma QueriesOfMadeKey<T>(labels: seq<string>, value: Option<T>, versions: seq<Version>)
    requires 1 <= |versions| <= 3
    ensures var k := MakeKey(labels, value, versions).value;
      && IntroducedIn(k) == versions[0]
      && (IsDeprecated(k) <==> |versions| >= 2)
      && (IsAllowed(k) <==> |versions| < 3)
      && (!IsAllowed(k) ==> IsDeprecated(k))
      && (DeprecatedIn(k).Err? <==> !IsDeprecated(k))
      && (IsDeprecated(k) ==> DeprecatedIn(k) == Ok(versions[1]))
      && (RemovedIn(k).Err? <==> IsAllowed(k))
      && (!IsAllowed(k) ==> RemovedIn(k) == Ok(versions[2]))
      && (DefaultValue(k).Err? <==> value.None?)
      && (value.Some? ==> DefaultValue(k) == Ok(value.value))
  {
  }

  /**
   * std::equal over the two label ranges: false when their lengths differ,
   * otherwise a comparison element by element from the front.
   */
  function EqualRanges(a: seq<string>, b: seq<string>): bool
  {
    if |a| != |b| then false
    else if |a| == 0 then true
    else a[0] == b[0] && EqualRanges(a[1..], b[1..])
  }

  /** Key::has_same_labels */
  predicate HasSameLabels<T>(k: Key<T>, labels: seq<string>)
  {
    EqualRanges(k.labels, labels)
  }

  /** Two label ranges compare equal exactly when they are the same sequence. */
  lemma {:induction false} EqualRangesIff(a: seq<string>, b: seq<string>)
    ensures EqualRanges(a, b) <==> a == b
  {
    if |a| == |b| && |a| > 0 {
      EqualRangesIff(a[1..], b[1..]);
      assert a == [a[0]] + a[1..];
      assert b == [b[0]] + b[1..];
    }
  }

  /** has_same_labels holds exactly when the labels are the key's labels, in the same order. */
  lemma HasSameLabelsIff<T>(k: Key<T>, labels: seq<string>)
    ensures HasSameLabels(k, labels) <==> |labels| == |k.labels| && forall i :: 0 <= i < |labels| ==> labels[i] == k.labels[i]
  {
    EqualRangesIff(k.labels, labels);
  }

  /** smash::join: the strings with the separator between consecutive ones. */
  function Join(v: seq<string>, sep: string): string
  {
    if |v| == 0 then ""
    else if |v| == 1 then v[0]
    else v[0] + sep + Join(v[1..], sep)
  }

  /** smash::quote: the string in double quotes. */
  function Quote(s: string): string
  {
    "\"" + s + "\""
  }

  /** The string conversion of a key: its labels joined by ": " and quoted. */
  function KeyToString<T>(k: Key<T>): (s: string)
    ensures |s| >= 2 && s[0] == '"' && s[|s| - 1] == '"'
  {
    Quote(Join(k.labels, ": "))
  }

  /** The examples of the join and quote tests. */
  lemma JoinQuoteExamples()
    ensures Join(["Hello", "my", "SMASHies!"], " ") == "Hello my SMASHies!"
    ensures Join(["Hello", "my", "SMASHies!"], "__") == "Hello__my__SMASHies!"
    ensures Quote("To be quoted") == "\"To be quoted\""
  {
    assert ["Hello", "my", "SMASHies!"][1..] == ["my", "SMASHies!"];
    assert ["my", "SMASHies!"][1..] == ["SMASHies!"];
  }

  predicate NoColon(s: string) { forall i :: 0 <= i < |s| ==> s[i] != ':' }

  predicate NoColonLabels(v: seq<string>) { forall i :: 0 <= i < |v| ==> NoColon(v[i]) }

  /** The first colon of x + ":" + y, for a colon-free x, is the one after x. */
  lemma ColonAfter(x: string, y: string)
    requires NoColon(x)
    ensures (x + ":" + y)[|x|] == ':'
    ensures forall i :: 0 <= i < |x| ==> (x + ":" + y)[i] != ':'
  {
  }

  /** Splitting at the first colon: two colon-free heads before a colon are equal, and so are the tails. */
  lemma FirstColon(x: string, y: string, x2: string, y2: string)
    requires NoColon(x) && NoColon(x2) && x + ":" + y == x2 + ":" + y2
    ensures x == x2 && y == y2
  {
    ColonAfter(x, y);
    ColonAfter(x2, y2);
    var s := x + ":" + y;
    assert x == s[..|x|] == x2;
    assert y == s[|x| + 1..] == y2;
  }

  /** Joined with ": ", labels whose first one is colon-free have their first colon right after the first label. */
  lemma JoinColon(v: seq<string>)
    requires |v| >= 2 && NoColon(v[0])
    ensures |v[0]| < |Join(v, ": ")| && Join(v, ": ")[|v[0]|] == ':'
  {
    ColonAfter(v[0], " " + Join(v[1..], ": "));
    assert v[0] + ":" + (" " + Join(v[1..], ": ")) == Join(v, ": ");
  }

  /**
   * For labels without colons the string of a key determines its labels:
   * keys with different labels convert to different strings.
   */
  lemma {:induction false} JoinInjective(a: seq<string>, b: seq<string>)
    requires |a| >= 1 && |b| >= 1 && NoColonLabels(a) && NoColonLabels(b)
    requires Join(a, ": ") == Join(b, ": ")
    ensures a == b
  {
    if |a| == 1 || |b| == 1 {
      if |a| >= 2 {
        JoinColon(a);
      }
      if |b| >= 2 {
        JoinColon(b);
      }
    } else {
      assert a[0] + ":" + (" " + Join(a[1..], ": ")) == Join(a, ": ");
      assert b[0] + ":" + (" " + Join(b[1..], ": ")) == Join(b, ": ");
      FirstColon(a[0], " " + Join(a[1..], ": "), b[0], " " + Join(b[1..], ": "));
      assert Join(a[1..], ": ") == (" " + Join(a[1..], ": "))[1..];
      assert Join(b[1..], ": ") == (" " + Join(b[1..], ": "))[1..];
      JoinInjective(a[1..], b[1..]);
      assert a == [a[0]] + a[1..];
      assert b == [b[0]] + b[1..];
    }
  }

  /** Keys with colon-free labels have the same string exactly when they have the same labels. */
  lemma KeyToStringInjective<T>(k1: Key<T>, k2: Key<T>)
    requires |k1.labels| >= 1 && |k2.labels| >= 1 && NoColonLabels(k1.labels) && NoColonLabels(k2.labels)
    ensures KeyToString(k1) == KeyToString(k2) <==> k1.labels == k2.labels
  {
    if KeyToString(k1) == KeyToString(k2) {
      var s1 := Join(k1.labels, ": ");
      var s2 := Join(k2.labels, ": ");
      assert s1 == KeyToString(k1)[1..|KeyToString(k1)| - 1];
      assert s2 == KeyToString(k2)[1..|KeyToString(k2)| - 1];
      JoinInjective(k1.labels, k2.labels);
    }
  }
}
