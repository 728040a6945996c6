/** The pieces of JavaScript's value and string behaviour that the schedule
    store depends on: the `undefined` a missing key reads as, the keys that
    spreading a string into an object produces, ASCII lower-casing and
    `String.prototype.includes`. */
module Js {

  datatype Option<+T> = None | Some(value: T)

  /** A string, or `undefined` (`None`): what reading an optional string key
      of a plain object gives. */
  type JsString = Option<string>

  /** How a template literal renders a string or `undefined`. */
  function Render(v: JsString): string
  {
    match v
    case Some(s) => s
    case None => "undefined"
  }

  // ---------------------------------------------------------------------
  // Spreading a string: `{...s}` has one key per character index.
  // ---------------------------------------------------------------------

  /** The character of one decimal digit. */
  function DigitChar(d: nat): (c: char)
    requires d < 10
    ensures '0' <= c <= '9'
  {
    (48 + d) as char
  }

  /** A non-empty string of decimal digits, such as an array index key. */
  predicate IsNumeral(s: string)
  {
    |s| > 0 && forall c :: c in s ==> '0' <= c <= '9'
  }

  /** The canonical decimal numeral of an index: the property key under which
      JavaScript exposes that index of a string or an array. */
  function IndexKey(i: nat): (r: string)
    ensures IsNumeral(r)
    ensures |r| == 1 <==> i < 10
    decreases i
  {
    if i < 10 then [DigitChar(i)] else IndexKey(i / 10) + [DigitChar(i % 10)]
  }

  /** Distinct indices have distinct keys. */
  lemma {:induction false} IndexKeyInjective(i: nat, j: nat)
    requires IndexKey(i) == IndexKey(j)
    ensures i == j
    decreases i
  {
    var a, b := IndexKey(i), IndexKey(j);
    if i < 10 {
      assert a[0] == DigitChar(i) && b[0] == DigitChar(j);
    } else {
      assert j >= 10;
      assert a[..|a| - 1] == IndexKey(i / 10);
      assert b[..|b| - 1] == IndexKey(j / 10);
      assert a[|a| - 1] == DigitChar(i % 10);
      assert b[|b| - 1] == DigitChar(j % 10);
      IndexKeyInjective(i / 10, j / 10);
    }
  }

  /** The entries of `{...s}` for the characters of `s` from index `i` on. */
  function SpreadFrom(s: string, i: nat): (r: map<string, string>)
    requires i <= |s|
    ensures forall k :: k in r ==> IsNumeral(k)
    decreases |s| - i
  {
    if i == |s| then map[] else SpreadFrom(s, i + 1)[IndexKey(i) := [s[i]]]
  }

  /** The object `{...s}` for a string `s`: every key is a numeral, so none
      of the named keys of a slot (`date`, `time`, ...) survives. */
  function SpreadString(s: string): (r: map<string, string>)
    ensures forall k :: k in r ==> IsNumeral(k)
  {
    SpreadFrom(s, 0)
  }

  lemma {:induction false} SpreadFromKeys(s: string, i: nat)
    requires i <= |s|
    ensures SpreadFrom(s, i).Keys == set n | i <= n < |s| :: IndexKey(n)
    decreases |s| - i
  {
    if i < |s| {
      SpreadFromKeys(s, i + 1);
      var later := set n | i + 1 <= n < |s| :: IndexKey(n);
      var all := set n | i <= n < |s| :: IndexKey(n);
      forall k | k in all ensures k in later + {IndexKey(i)} {
        var n :| i <= n < |s| && k == IndexKey(n);
        if n > i {
          assert k in later;
        }
      }
      assert all == later + {IndexKey(i)};
    }
  }

  lemma {:induction false} SpreadFromAt(s: string, i: nat, n: nat)
    requires i <= n < |s|
    ensures IndexKey(n) in SpreadFrom(s, i) && SpreadFrom(s, i)[IndexKey(n)] == [s[n]]
    decreases |s| - i
  {
    if i < n {
      SpreadFromAt(s, i + 1, n);
      if IndexKey(i) == IndexKey(n) {
        IndexKeyInjective(i, n);
      }
    }
  }

  /** Character `n` of `s` is stored under key `IndexKey(n)` of `{...s}`. */
  lemma SpreadStringAt(s: string, n: nat)
    requires n < |s|
    ensures IndexKey(n) in SpreadString(s) && SpreadString(s)[IndexKey(n)] == [s[n]]
  {
    SpreadFromAt(s, 0, n);
  }

  /** `{...s}` has exactly the index keys of `s`, one per character. */
  lemma SpreadStringKeys(s: string)
    ensures SpreadString(s).Keys == set n | 0 <= n < |s| :: IndexKey(n)
  {
    SpreadFromKeys(s, 0);
  }

  // ---------------------------------------------------------------------
  // Lower-casing and substring search.
  // ---------------------------------------------------------------------

  /** `toLowerCase` restricted to ASCII letters. */
  function LowerChar(c: char): char
  {
    if 'A' <= c <= 'Z' then (c as int + 32) as char else c
  }

  function Lower(s: string): string
  {
    seq(|s|, i requires 0 <= i < |s| => LowerChar(s[i]))
  }

  /** `q` occurs in `s` starting at index `i`. */
  predicate OccursAt(s: string, q: string, i: nat)
  {
    i + |q| <= |s| && s[i..i + |q|] == q
  }

  /** `s.includes(q)`, as a left-to-right scan. */
  function Includes(s: string, q: string): bool
    decreases |s|
  {
    if q <= s then true
    else if |s| == 0 then false
    else Includes(s[1..], q)
  }

  /** The scan finds `q` exactly when `q` occurs somewhere in `s`. */
  lemma {:induction false} IncludesIff(s: string, q: string)
    ensures Includes(s, q) <==> exists i: nat :: OccursAt(s, q, i)
    decreases |s|
  {
    if q <= s {
      assert OccursAt(s, q, 0);
    } else if |s| == 0 {
      forall i: nat ensures !OccursAt(s, q, i) {
      }
    } else {
      IncludesIff(s[1..], q);
      if Includes(s[1..], q) {
        var i: nat :| OccursAt(s[1..], q, i);
        assert s[i + 1..i + 1 + |q|] == s[1..][i..i + |q|];
        assert OccursAt(s, q, i + 1);
      } else {
        forall i: nat | OccursAt(s, q, i) ensures false {
          if i > 0 {
            assert s[1..][i - 1..i - 1 + |q|] == s[i..i + |q|];
            assert OccursAt(s[1..], q, i - 1);
          }
        }
      }
    }
  }

  /** Every string includes the empty string: an empty query matches all. */
  lemma IncludesEmpty(s: string)
    ensures Includes(s, "")
  {
  }
}
