/**
 * The `pre_option` filter callback `maybe_prime_transient_cache`. Before
 * WordPress reads a single option it offers the read to this callback. When
 * the option is one half of a transient whose value key is not among the
 * autoloaded options (so the transient expires or does not exist), the
 * callback primes the option cache for both halves in one batch.
 * It never changes the pre-flight value it was given.
 *
 * The call to `wp_prime_option_caches` is modelled as the batch of keys it
 * would be given (`primed`), and `wp_load_alloptions()` as an input map.
 */
module PerformantTransients {
  import opened Wrappers
  import opened PhpString
  import opened TransientKeys

  /**
   * The `$pre` argument: PHP `false` means "no filter has resolved this read
   * yet"; any other value means an earlier filter has resolved it.
   */
  datatype PreOption<V> = Unresolved | Resolved(value: V)

  /** The autoloaded options; a `None` entry is an option stored as `null`. */
  type AllOptions<V> = map<string, Option<V>>

  /** What one call does: the value it returns and the batch it primes, if any. */
  datatype Outcome<V> = Outcome(pre: PreOption<V>, primed: Option<seq<string>>)

  /** PHP `isset($alloptions[$key])`: the key is present and its value is not `null`. */
  predicate IsSet<V>(alloptions: AllOptions<V>, key: string)
  {
    key in alloptions && alloptions[key].Some?
  }

  /**
   * The transient name taken from a `_transient_` option name with the
   * literal offsets 19 and 11. It is the name the naming convention gives
   * that option, so putting the prefix back gives the option name again.
   */
  function TransientName(optionName: string): (name: string)
    requires StartsWith(optionName, ValuePrefix)
    ensures ParseKey(optionName) == Timeout(name) || ParseKey(optionName) == Value(name)
    ensures StartsWith(optionName, TimeoutPrefix) ==> TimeoutKey(name) == optionName
    ensures !StartsWith(optionName, TimeoutPrefix) ==> ValueKey(name) == optionName
  {
    if StartsWith(optionName, TimeoutPrefix) then
      StripPrepended(TimeoutPrefix, optionName[19..]);
      Substr(optionName, 19)
    else
      StripPrepended(ValuePrefix, optionName[11..]);
      Substr(optionName, 11)
  }

  /**
   * The callback. It always returns `pre`; it primes only for an unresolved
   * read of a transient option, and then a value key and its timeout key,
   * one of which is the option being read.
   */
  function MaybePrimeTransientCache<V>(pre: PreOption<V>, optionName: string, alloptions: AllOptions<V>)
    : (r: Outcome<V>)
    ensures r.pre == pre
    ensures r.primed.Some? ==> pre.Unresolved? && StartsWith(optionName, ValuePrefix)
    ensures r.primed.Some? ==>
              exists name :: r.primed.value == [ValueKey(name), TimeoutKey(name)] && !IsSet(alloptions, ValueKey(name))
    ensures r.primed.Some? ==> optionName in r.primed.value
  {
    if !StartsWith(optionName, ValuePrefix) || pre != Unresolved then
      Outcome(pre, None)
    else
      var transientName := TransientName(optionName);
      if IsSet(alloptions, ValuePrefix + transientName) then
        Outcome(pre, None)
      else
        var optionNames := [ValuePrefix + transientName, TimeoutPrefix + transientName];
        Outcome(pre, Some(optionNames))
  }

  /**
   * The callback agrees with the naming convention's parser: it primes
   * exactly when the read is unresolved, the option is a transient key and
   * that transient's value key is not set in alloptions, and the batch is
   * then the value key and the timeout key of the parsed name, in that order.
   */
  lemma PrimesAsConventionPrescribes<V>(pre: PreOption<V>, optionName: string, alloptions: AllOptions<V>)
    ensures var r := MaybePrimeTransientCache(pre, optionName, alloptions);
            var k := ParseKey(optionName);
            r.pre == pre &&
            (r.primed.Some? <==> pre.Unresolved? && !k.NotATransient? && !IsSet(alloptions, ValueKey(k.name))) &&
            (r.primed.Some? ==> r.primed.value == [ValueKey(k.name), TimeoutKey(k.name)])
  {
  }

  /** An already resolved read is passed through and nothing is primed. */
  lemma ResolvedReadIsPassedThrough<V>(v: V, optionName: string, alloptions: AllOptions<V>)
    ensures MaybePrimeTransientCache(Resolved(v), optionName, alloptions) == Outcome(Resolved(v), None)
  {
  }

  /** A read of an option that is not a transient is passed through and nothing is primed. */
  lemma NonTransientIsPassedThrough<V>(pre: PreOption<V>, optionName: string, alloptions: AllOptions<V>)
    requires !StartsWith(optionName, ValuePrefix)
    ensures MaybePrimeTransientCache(pre, optionName, alloptions) == Outcome(pre, None)
  {
  }

  /**
   * A transient whose value key is set in alloptions does not expire, so a
   * read of its timeout key triggers no priming, whatever its name.
   */
  lemma NonExpiringTimeoutKeyIsNotPrimed<V>(pre: PreOption<V>, name: string, alloptions: AllOptions<V>)
    requires IsSet(alloptions, ValueKey(name))
    ensures MaybePrimeTransientCache(pre, TimeoutKey(name), alloptions) == Outcome(pre, None)
  {
    TimeoutKeyParses(name);
  }

  /**
   * Nor does a read of its value key, when the name does not begin with
   * `timeout_` (otherwise the key is read as another transient's timeout key).
   */
  lemma NonExpiringValueKeyIsNotPrimed<V>(pre: PreOption<V>, name: string, alloptions: AllOptions<V>)
    requires IsSet(alloptions, ValueKey(name))
    requires !StartsWith(name, TimeoutInfix)
    ensures MaybePrimeTransientCache(pre, ValueKey(name), alloptions) == Outcome(pre, None)
  {
    ValueKeyParses(name);
  }

  /**
   * A transient whose value key is not set in alloptions either expires or
   * does not exist. In both cases an unresolved read of its timeout key
   * primes the value key and the timeout key of that transient, value key
   * first.
   */
  lemma UnlistedTimeoutKeyPrimesBothKeys<V>(name: string, alloptions: AllOptions<V>)
    requires !IsSet(alloptions, ValueKey(name))
    ensures MaybePrimeTransientCache(Unresolved, TimeoutKey(name), alloptions).primed
            == Some([ValueKey(name), TimeoutKey(name)])
  {
    TimeoutKeyParses(name);
  }

  /**
   * So does an unresolved read of its value key, when the name does not
   * begin with `timeout_`. This holds whether the transient expires or does
   * not exist.
   */
  lemma UnlistedValueKeyPrimesBothKeys<V>(name: string, alloptions: AllOptions<V>)
    requires !IsSet(alloptions, ValueKey(name))
    requires !StartsWith(name, TimeoutInfix)
    ensures MaybePrimeTransientCache(Unresolved, ValueKey(name), alloptions).primed
            == Some([ValueKey(name), TimeoutKey(name)])
  {
    ValueKeyParses(name);
  }

  /** The value key and the timeout key of one transient are treated alike. */
  lemma SiblingKeysAreTreatedAlike<V>(pre: PreOption<V>, name: string, alloptions: AllOptions<V>)
    requires !StartsWith(name, TimeoutInfix)
    ensures MaybePrimeTransientCache(pre, ValueKey(name), alloptions)
            == MaybePrimeTransientCache(pre, TimeoutKey(name), alloptions)
  {
    ValueKeyParses(name);
    TimeoutKeyParses(name);
  }

  /**
   * For a transient whose name begins with `timeout_`, reading its value key
   * is read as the timeout key of the shorter name: the callback consults
   * and primes the shorter name's keys, never this transient's timeout key.
   */
  lemma TimeoutNamedTransientPrimesShorterName<V>(m: string, alloptions: AllOptions<V>)
    ensures MaybePrimeTransientCache(Unresolved, ValueKey(TimeoutInfix + m), alloptions).primed
            == if IsSet(alloptions, ValueKey(m)) then None else Some([ValueKey(m), TimeoutKey(m)])
    ensures TimeoutKey(TimeoutInfix + m) !in [ValueKey(m), TimeoutKey(m)]
  {
    var key := ValueKey(TimeoutInfix + m);
    ValueKeyOfTimeoutName(m);
    // Naming the parse of `key` here keeps the next call's instantiation cheap.
    assert ParseKey(key) == Timeout(m);
    PrimesAsConventionPrescribes(Unresolved, key, alloptions);
    var longer := TimeoutKey(TimeoutInfix + m);
    assert |longer| == |TimeoutPrefix| + |TimeoutInfix| + |m|;
    assert |longer| != |ValueKey(m)| && |longer| != |TimeoutKey(m)|;
  }

  /**
   * A non-expiring transient named `timeout_<m>` (its value key set in
   * alloptions) is still primed on a read of its value key whenever the value
   * key of `m` is not set: the callback looks up `m`'s value key, not the key
   * being read, and primes `m`'s pair.
   */
  lemma NonExpiringTimeoutNamedTransientIsPrimed<V>(m: string, alloptions: AllOptions<V>)
    requires IsSet(alloptions, ValueKey(TimeoutInfix + m))
    requires !IsSet(alloptions, ValueKey(m))
    ensures MaybePrimeTransientCache(Unresolved, ValueKey(TimeoutInfix + m), alloptions).primed
            == Some([ValueKey(m), TimeoutKey(m)])
  {
    TimeoutNamedTransientPrimesShorterName(m, alloptions);
  }

  /**
   * With nothing in alloptions, an unresolved read of either option of the
   * transient `test_transient` (`get_transient` reads the timeout option
   * first, then the value option) primes `_transient_test_transient` and
   * `_transient_timeout_test_transient` together, in that order.
   */
  lemma TestTransientPrimesOneBatch<V>()
    ensures MaybePrimeTransientCache<V>(Unresolved, "_transient_timeout_test_transient", map[]).primed
            == Some(["_transient_test_transient", "_transient_timeout_test_transient"])
    ensures MaybePrimeTransientCache<V>(Unresolved, "_transient_test_transient", map[]).primed
            == Some(["_transient_test_transient", "_transient_timeout_test_transient"])
  {
    assert !StartsWith("test_transient", TimeoutInfix) by {
      assert "test_transient"[1] != TimeoutInfix[1];
    }
    assert ValueKey("test_transient") == "_transient_test_transient";
    assert TimeoutKey("test_transient") == "_transient_timeout_test_transient";
    UnlistedTimeoutKeyPrimesBothKeys<V>("test_transient", map[]);
    UnlistedValueKeyPrimesBothKeys<V>("test_transient", map[]);
  }
}
