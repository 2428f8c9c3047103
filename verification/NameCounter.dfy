/** Fresh variable names: client/name-counter.ts. */
module NameCounters {

  type Digit = n: int | 0 <= n < 52

  /** numberToLetter: the capital letters, then the small ones. */
  function NumberToLetter(num: Digit): (c: char)
    ensures 'A' <= c <= 'Z' || 'a' <= c <= 'z'
  {
    var base := num + 65;
    (if base > 90 then base + 6 else base) as char
  }

  predicate IsLetter(c: char) {
    'A' <= c <= 'Z' || 'a' <= c <= 'z'
  }

  /** Which digit a letter stands for. */
  function LetterToNumber(c: char): (num: Digit)
    requires IsLetter(c)
  {
    if c <= 'Z' then c as int - 65 else c as int - 71
  }

  // ----- the n-th name

  /** The `n`-th word over the 52 letters, shorter words first: there is no digit zero. */
  function NameOf(n: nat): (s: string)
    ensures forall c | c in s :: IsLetter(c)
  {
    if n == 0 then "" else NameOf((n - 1) / 52) + [NumberToLetter((n - 1) % 52)]
  }

  /** The place of a word in that order. */
  function PlaceOf(s: string): nat
    requires forall c | c in s :: IsLetter(c)
  {
    if s == "" then 0 else 52 * PlaceOf(s[..|s| - 1]) + LetterToNumber(s[|s| - 1]) + 1
  }

  lemma {:induction false} PlaceOfName(n: nat)
    ensures PlaceOf(NameOf(n)) == n
  {
    if n > 0 {
      PlaceOfName((n - 1) / 52);
      var s := NameOf(n);
      assert s[..|s| - 1] == NameOf((n - 1) / 52);
    }
  }

  /** Every word is the name of its place: the numerals are a bijection. */
  lemma {:induction false} NameOfPlace(s: string)
    requires forall c | c in s :: IsLetter(c)
    ensures NameOf(PlaceOf(s)) == s
  {
    if s != "" {
      NameOfPlace(s[..|s| - 1]);
      var d := LetterToNumber(s[|s| - 1]);
      assert (PlaceOf(s) - 1) / 52 == PlaceOf(s[..|s| - 1]) && (PlaceOf(s) - 1) % 52 == d;
      assert s == s[..|s| - 1] + [s[|s| - 1]];
    }
  }

  /** No two numbers have the same name. */
  lemma NamesDiffer(m: nat, n: nat)
    ensures NameOf(m) == NameOf(n) <==> m == n
  {
    PlaceOfName(m);
    PlaceOfName(n);
  }

  // ----- the counter

  /** The number some digits stand for, the least significant first. */
  ghost function Number(parts: seq<int>): int {
    if parts == [] then 0 else parts[0] + 1 + 52 * Number(parts[1..])
  }

  ghost predicate Digits(parts: seq<int>) {
    forall i :: 0 <= i < |parts| ==> 0 <= parts[i] < 52
  }

  ghost function Spelled(parts: seq<int>): string
    requires Digits(parts)
  {
    if parts == [] then "" else Spelled(parts[1..]) + [NumberToLetter(parts[0])]
  }

  lemma {:induction false} SpelledIsName(parts: seq<int>)
    requires Digits(parts)
    ensures Number(parts) >= 0 && Spelled(parts) == NameOf(Number(parts))
  {
    if parts != [] {
      SpelledIsName(parts[1..]);
      assert (Number(parts) - 1) / 52 == Number(parts[1..]) && (Number(parts) - 1) % 52 == parts[0];
    }
  }

  class NameCounter {
    var parts: seq<int>

    ghost predicate Valid()
      reads this
    {
      parts != [] && Digits(parts)
    }

    constructor ()
      ensures Valid() && Number(parts) == 1
    {
      parts := [0];
    }

    /** The letters of the digits, most significant first. */
    method Value() returns (res: string)
      requires Valid()
      ensures Number(parts) >= 0 && res == NameOf(Number(parts))
    {
      res := "";
      for i := 0 to |parts|
        invariant res == Spelled(parts[..i])
      {
        var part: Digit := parts[i];
        res := [NumberToLetter(part)] + res;
        assert parts[..i + 1] == parts[..i] + [part];
        SpelledSnoc(parts[..i], part);
      }
      assert parts[..|parts|] == parts;
      SpelledIsName(parts);
    }

    /** increment: the next name. */
    method Increment() returns (res: string)
      requires Valid()
      modifies this
      ensures Valid() && Number(parts) == old(Number(parts)) + 1 && Number(parts) >= 0 && res == NameOf(Number(parts))
    {
      IncrementIndex(0);
      assert parts[0..] == parts && old(parts)[0..] == old(parts);
      res := Value();
    }

    /** incrementIndex: one more at `idx`, carrying upward. */
    method IncrementIndex(idx: nat)
      requires idx <= |parts| && Digits(parts)
      modifies this
      ensures idx < |parts| && Digits(parts) && parts[..idx] == old(parts[..idx])
      ensures Number(parts[idx..]) == old(Number(parts[idx..])) + 1
      decreases |parts| - idx
    {
      ghost var was := parts;
      if idx == |parts| {
        parts := parts + [-1];
      }
      ghost var tail := parts[idx + 1..];
      var nval := parts[idx] + 1;
      parts := parts[idx := nval];
      if nval > 51 {
        parts := parts[idx := 0];
        assert parts[idx + 1..] == tail == was[idx + 1..];
        IncrementIndex(idx + 1);
        assert parts[..idx + 1][idx] == parts[idx] && parts[..idx] == parts[..idx + 1][..idx];
        assert was[idx..] == [was[idx]] + was[idx + 1..];
      } else {
        assert parts[idx + 1..] == tail;
      }
      assert parts[idx..] == [parts[idx]] + parts[idx + 1..];
    }
  }

  lemma {:induction false} SpelledSnoc(parts: seq<int>, part: Digit)
    requires Digits(parts)
    ensures Digits(parts + [part]) && Spelled(parts + [part]) == [NumberToLetter(part)] + Spelled(parts)
  {
    if parts == [] {
      assert [] + [part] == [part] && [part][1..] == [];
    } else {
      SpelledSnoc(parts[1..], part);
      assert (parts + [part])[1..] == parts[1..] + [part];
    }
  }
}
