# Performant Transients — a Dafny model

This project models the WordPress plugin *Performant Transients*. The plugin hooks the
`pre_option` filter with `maybe_prime_transient_cache`. A transient called `name` is stored
in two options, `_transient_<name>` (the value) and `_transient_timeout_<name>` (its expiry).
When WordPress is about to read either of them, the callback checks the autoloaded options
(`alloptions`). A transient whose value key is set there has no timeout and is not primed.
If the value key is not set there, the transient either expires or does not exist. In both
cases the callback primes the option cache for both keys with one `wp_prime_option_caches`
call, so the value and its timeout cost one database round trip rather than two. It always
returns its `$pre` argument untouched.

Modules:

- `Wrappers` (`wrappers.dfy`): `Option`.
- `PhpString` (`php_string.dfy`): `str_starts_with`, and `substr` with a non-negative
  offset and without a length, as PHP 8 defines them on ASCII text (see "Left out" for bytes versus characters).
- `TransientKeys` (`transient_keys.dfy`): the key-naming convention. It includes an
  independent, character-by-character parser `ParseKey`, which returns `NotATransient`,
  `Value(name)` or `Timeout(name)`.
- `PerformantTransients` (`performant_transients.dfy`): the callback.
  - It is modelled as a function from `$pre`, the option name and `alloptions` to an
    `Outcome`.
  - An `Outcome` holds the returned `$pre` and the batch handed to `wp_prime_option_caches`
    (`None` when that call is not made).
  - `$pre` is `Unresolved` (PHP `false`) or `Resolved(v)`.
  - `alloptions` is a `map<string, Option<V>>`. `isset` is true for a key that is present
    with a value that is not `null`.

The callback is proved against `ParseKey`. It returns `$pre` on every path. It primes exactly
when the read is unresolved, the key is a transient key, and the transient's value key is not
set. The batch is then `[_transient_<n>, _transient_timeout_<n>]`, value key first. The
literal offsets 19 and 11 recover the name, so putting the prefix back gives the option name
again.

One ambiguity of the convention is proved rather than hidden. The value key of a transient
named `timeout_<m>` is the same string as the timeout key of `m`. The code tests the timeout
prefix first, so that key is always read as `m`'s timeout key (`ValueKeyOfTimeoutName`,
`TimeoutNamedTransientPrimesShorterName`). The code then checks `_transient_<m>` in alloptions
rather than the key being read. So a non-expiring transient named `timeout_<m>` is still
primed whenever `_transient_<m>` is not set (`NonExpiringTimeoutNamedTransientIsPrimed`). The
cost is one needless `wp_prime_option_caches` call with `m`'s pair. The
value read is unaffected, because priming never changes what is returned.

The model covers only the `_transient_` family, which is all that `performant-transients.php` handles.

## Model

| member | source | states |
|---|---|---|
| PhpString.StartsWith | performant-transients.php:70-76 | `str_starts_with`: holds exactly when the string is the prefix followed by some remainder |
| PhpString.Substr | performant-transients.php:77-79 | `substr` without a length: for an offset within the string, the first `start` characters followed by the result give the string back; past the end the result is empty |
| PerformantTransients.IsSet | performant-transients.php:83 | `isset($alloptions[$k])`: the key is present and its value is not `null` |
| TransientKeys.StripPrefix | performant-transients.php:70-80 | a prefix can be stripped exactly when the key starts with it, and the prefix followed by what remains is the key again |
| TransientKeys.ParseKey | performant-transients.php:70-80 | a key is a transient key exactly when it starts with `_transient_`; a timeout key renders back as `_transient_timeout_` + name; a value key renders back as `_transient_` + name and does not start with the timeout prefix |
| TransientKeys.TimeoutKeyParses | performant-transients.php:76-77 | every `_transient_timeout_<n>` key parses back to the name n |
| TransientKeys.ValueKeyParses | performant-transients.php:76-80 | `_transient_<n>` parses as the value key of n exactly when n does not begin with `timeout_` (both directions) |
| TransientKeys.ValueKeyOfTimeoutName | performant-transients.php:76-77 | the value key of `timeout_<m>` is the same string as the timeout key of m, and it parses as the timeout key of m |
| PerformantTransients.TransientName | performant-transients.php:76-80 | the name cut out with offsets 19 or 11 is the name the convention gives the key, so putting the matching prefix back gives the option name; this shows that 19 and 11 are the two prefix lengths |
| PerformantTransients.MaybePrimeTransientCache | performant-transients.php:68-99 | returns `$pre` unchanged on every path; primes only for an unresolved read of a `_transient_` key; a primed batch is a value key and its timeout key, in that order, for a name whose value key is not set in alloptions, and it contains the option being read |
| PerformantTransients.PrimesAsConventionPrescribes | performant-transients.php:68-99 | primes if and only if `$pre` is the `false` sentinel, the key parses as a transient key and that transient's value key is not set in alloptions; the batch is then exactly `[_transient_<n>, _transient_timeout_<n>]` for the parsed name n |
| PerformantTransients.ResolvedReadIsPassedThrough | performant-transients.php:69-74 | a `$pre` other than `false` is returned as given and nothing is primed |
| PerformantTransients.NonTransientIsPassedThrough | performant-transients.php:69-74 | a name not starting with `_transient_` is passed through and nothing is primed |
| PerformantTransients.NonExpiringTimeoutKeyIsNotPrimed | performant-transients.php:76-88 | for every name n, when `_transient_<n>` is set in alloptions, a read of `_transient_timeout_<n>` primes nothing and returns `$pre` |
| PerformantTransients.NonExpiringValueKeyIsNotPrimed | performant-transients.php:76-88 | for n not beginning with `timeout_`, when `_transient_<n>` is set in alloptions, a read of `_transient_<n>` primes nothing and returns `$pre` |
| PerformantTransients.UnlistedTimeoutKeyPrimesBothKeys | performant-transients.php:76-96 | for every name n, when `_transient_<n>` is not set (the transient expires or does not exist), an unresolved read of `_transient_timeout_<n>` primes exactly `[_transient_<n>, _transient_timeout_<n>]` |
| PerformantTransients.UnlistedValueKeyPrimesBothKeys | performant-transients.php:76-96 | for n not beginning with `timeout_`, when `_transient_<n>` is not set (the transient expires or does not exist), an unresolved read of `_transient_<n>` primes exactly `[_transient_<n>, _transient_timeout_<n>]` |
| PerformantTransients.SiblingKeysAreTreatedAlike | performant-transients.php:76-94 | for n not beginning with `timeout_`, the value key and the timeout key of n give the identical outcome, batch included |
| PerformantTransients.TimeoutNamedTransientPrimesShorterName | performant-transients.php:76-83 | for a transient named `timeout_<m>`, the value-key read consults and primes m's keys, and the primed batch never contains `_transient_timeout_timeout_<m>` |
| PerformantTransients.NonExpiringTimeoutNamedTransientIsPrimed | performant-transients.php:76-96 | for a transient named `timeout_<m>` whose value key is set in alloptions, a read of that value key still primes `[_transient_<m>, _transient_timeout_<m>]` when `_transient_<m>` is not set |
| PerformantTransients.TestTransientPrimesOneBatch | tests/class-test-performant-transients.php:26 | with empty alloptions, an unresolved read of `_transient_timeout_test_transient` or of `_transient_test_transient` primes `_transient_test_transient` and `_transient_timeout_test_transient` together, in that order |

## Left out

- `bootstrap()` (capability probes and registration on `pre_option` at priority 100): host environment plumbing, with no logic to prove.
- The `ABSPATH` guard and `die`: process control.
- `wp_load_alloptions` and `wp_prime_option_caches` internals: foreign WordPress and database calls. Alloptions is an input map, and priming is the returned key batch.
- The option cache and the database: the model does not record cache hits, so query counts and the write-path behaviour (three queries for a fresh `set_transient`) are not modelled.
- Site/network transients and swallowing of batch-prime failures: neither is in the modelled code.
- PHP strings are byte strings, and `str_starts_with` and `substr` count bytes. The model's strings are sequences of characters, so it cannot express an option name that is not valid UTF-8. On non-ASCII text `substr` at a byte offset and `Substr` at a character offset differ. In the callback the two agree, because the offsets 11 and 19 are applied only after the ASCII prefixes `_transient_` and `_transient_timeout_` have matched, so the bytes and the characters cut are the same.
- Substr: models PHP 8's `""` for an offset past the end of the string, not the `false` that PHP 7.2 to 7.4 return. The callback never uses such an offset.
- Determinism of the callback has no lemma of its own, because a Dafny function is deterministic by construction: equal inputs give an equal `Outcome`.
