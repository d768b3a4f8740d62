/**
 * The option-name convention WordPress uses for a transient called `name`:
 * its value lives under `_transient_<name>` and its expiry time under
 * `_transient_timeout_<name>`. `ParseKey` reads that convention as a small
 * parser returning a tagged variant; it is the reference the priming
 * callback's substring arithmetic is checked against.
 */
module TransientKeys {
  import opened Wrappers
  import opened PhpString

  const ValuePrefix: string := "_transient_"
  const TimeoutPrefix: string := "_transient_timeout_"

  /** What a timeout key adds after the value prefix. */
  const TimeoutInfix: string := "timeout_"

  function ValueKey(name: string): string { ValuePrefix + name }

  function TimeoutKey(name: string): string { TimeoutPrefix + name }

  datatype KeyKind = NotATransient | Value(name: string) | Timeout(name: string)

  /** Removes `prefix` from the front of `s`, one character at a time. */
  function StripPrefix(s: string, prefix: string): (r: Option<string>)
    ensures r.Some? <==> StartsWith(s, prefix)
    ensures r.Some? ==> prefix + r.value == s
    decreases |prefix|
  {
    if prefix == [] then Some(s)
    else if s == [] || s[0] != prefix[0] then None
    else
      var rest := StripPrefix(s[1..], prefix[1..]);
      assert StartsWith(s, prefix) <==> StartsWith(s[1..], prefix[1..]) by {
        if StartsWith(s[1..], prefix[1..]) {
          assert s[..|prefix|] == [s[0]] + s[1..][..|prefix| - 1];
          assert prefix == [prefix[0]] + prefix[1..];
        }
        if StartsWith(s, prefix) {
          assert s[1..][..|prefix| - 1] == s[..|prefix|][1..];
        }
      }
      assert rest.Some? ==> prefix + rest.value == [s[0]] + (prefix[1..] + rest.value);
      rest
  }

  /**
   * The convention as a parser. A key that carries the timeout prefix is a
   * timeout key; otherwise a key that carries the value prefix is a value key.
   */
  function ParseKey(key: string): (k: KeyKind)
    ensures k.NotATransient? <==> !StartsWith(key, ValuePrefix)
    ensures k.Timeout? ==> key == TimeoutKey(k.name)
    ensures k.Value? ==> key == ValueKey(k.name) && !StartsWith(key, TimeoutPrefix)
  {
    match StripPrefix(key, TimeoutPrefix)
    case Some(name) =>
      TimeoutPrefixExtendsValuePrefix();
      StartsWithLonger(key, ValuePrefix, TimeoutInfix);
      Timeout(name)
    case None =>
      match StripPrefix(key, ValuePrefix)
      case Some(name) => Value(name)
      case None => NotATransient
  }

  /** The timeout prefix is the value prefix followed by `timeout_`. */
  lemma TimeoutPrefixExtendsValuePrefix()
    ensures TimeoutPrefix == ValuePrefix + TimeoutInfix
  {
  }

  /** A key that starts with `a + b` starts with `a`. */
  lemma StartsWithLonger(s: string, a: string, b: string)
    requires StartsWith(s, a + b)
    ensures StartsWith(s, a)
  {
    assert s[..|a|] == s[..|a + b|][..|a|];
  }

  /** `a + b` is a prefix of `a + t` exactly when `b` is a prefix of `t`. */
  lemma StartsWithCommonPrefix(a: string, b: string, t: string)
    ensures StartsWith(a + t, a + b) <==> StartsWith(t, b)
  {
    if |b| <= |t| {
      assert (a + t)[..|a + b|] == a + t[..|b|];
      if (a + t)[..|a + b|] == a + b {
        assert t[..|b|] == (a + t[..|b|])[|a|..];
      }
    }
  }

  /** Stripping a prefix that was just prepended gives back the suffix. */
  lemma StripPrepended(prefix: string, name: string)
    ensures StripPrefix(prefix + name, prefix) == Some(name)
  {
    var r := StripPrefix(prefix + name, prefix);
    assert (prefix + name)[..|prefix|] == prefix;
    assert r.value == (prefix + r.value)[|prefix|..];
    assert name == (prefix + name)[|prefix|..];
  }

  /** Every timeout key parses back to its own transient name. */
  lemma TimeoutKeyParses(name: string)
    ensures ParseKey(TimeoutKey(name)) == Timeout(name)
  {
    StripPrepended(TimeoutPrefix, name);
  }

  /**
   * A value key parses back to its own transient name exactly when the name
   * does not itself begin with `timeout_`.
   */
  lemma ValueKeyParses(name: string)
    ensures ParseKey(ValueKey(name)) == Value(name) <==> !StartsWith(name, TimeoutInfix)
  {
    TimeoutPrefixExtendsValuePrefix();
    StartsWithCommonPrefix(ValuePrefix, TimeoutInfix, name);
    if StartsWith(name, TimeoutInfix) {
      var m := name[|TimeoutInfix|..];
      assert name == TimeoutInfix + m;
      ValueKeyOfTimeoutName(m);
    } else {
      StripPrepended(ValuePrefix, name);
    }
  }

  /**
   * The ambiguity of the convention: the value key of a transient called
   * `timeout_<m>` is the very same string as the timeout key of `m`, and the
   * parser reads it as the latter.
   */
  lemma ValueKeyOfTimeoutName(m: string)
    ensures ValueKey(TimeoutInfix + m) == TimeoutKey(m)
    ensures ParseKey(ValueKey(TimeoutInfix + m)) == Timeout(m)
  {
    TimeoutPrefixExtendsValuePrefix();
    assert ValuePrefix + (TimeoutInfix + m) == (ValuePrefix + TimeoutInfix) + m;
    TimeoutKeyParses(m);
  }
}
