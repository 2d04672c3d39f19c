// String helpers shared by the ticket model: ASCII lower-casing (the part of
// JavaScript's `toLowerCase` the bot relies on), `Array.prototype.join`, a
// splitter that inverts it, substring search (`String.prototype.includes`) and
// the decimal rendering of snowflake ids.
module Text {

  datatype Option<T> = None | Some(value: T)

  function LowerChar(c: char): (r: char)
    ensures 'A' <= c <= 'Z' ==> r as int == c as int + 32
    ensures !('A' <= c <= 'Z') ==> r == c
  {
    if 'A' <= c <= 'Z' then (c as int + 32) as char else c
  }

  /** ASCII lower-casing, character by character. */
  function Lower(s: string): (r: string)
    ensures |r| == |s|
    ensures forall i :: 0 <= i < |s| ==> r[i] == LowerChar(s[i])
  {
    if s == [] then [] else [LowerChar(s[0])] + Lower(s[1..])
  }

  lemma LowerAppend(s: string, t: string)
    ensures Lower(s + t) == Lower(s) + Lower(t)
  {
    forall i | 0 <= i < |s + t|
      ensures Lower(s + t)[i] == (Lower(s) + Lower(t))[i]
    {
      if i < |s| {
        assert (s + t)[i] == s[i];
      } else {
        assert (s + t)[i] == t[i - |s|];
      }
    }
  }

  /** The number of characters in all of `parts` together. */
  function TotalLength(parts: seq<string>): nat
  {
    if parts == [] then 0 else |parts[0]| + TotalLength(parts[1..])
  }

  /**
   * `parts.join(sep)`: the empty list joins to the empty string; otherwise the
   * result starts with the first part and holds every part plus one separator
   * between each neighbouring pair.
   */
  function Join(parts: seq<string>, sep: string): (r: string)
    ensures parts == [] ==> r == ""
    ensures |parts| >= 1 ==> |r| == TotalLength(parts) + (|parts| - 1) * |sep|
    ensures |parts| >= 1 ==> r[..|parts[0]|] == parts[0]
  {
    if |parts| == 0 then ""
    else if |parts| == 1 then parts[0]
    else parts[0] + sep + Join(parts[1..], sep)
  }

  /** Joining one more part appends a separator and that part, so `Join` is fixed
      on every list by this and the one-part case. */
  lemma {:induction false} JoinAppend(parts: seq<string>, x: string, sep: string)
    requires |parts| >= 1
    ensures Join(parts + [x], sep) == Join(parts, sep) + sep + x
  {
    var all := parts + [x];
    if |parts| == 1 {
      assert all[1..] == [x];
    } else {
      assert all[1..] == parts[1..] + [x];
      JoinAppend(parts[1..], x, sep);
    }
  }

  lemma JoinStartsWithFirst(parts: seq<string>, sep: string)
    requires |parts| >= 1 && |parts[0]| >= 1
    ensures |Join(parts, sep)| >= 1 && Join(parts, sep)[0] == parts[0][0]
  {
  }

  /** Splits `s` at every occurrence of `c`; the pieces never contain `c`. */
  function SplitOn(s: string, c: char): (r: seq<string>)
    ensures |r| >= 1
  {
    if s == [] then [""]
    else
      var rest := SplitOn(s[1..], c);
      if s[0] == c then [""] + rest else [[s[0]] + rest[0]] + rest[1..]
  }

  lemma {:induction false} SplitWithoutSeparator(x: string, c: char)
    requires c !in x
    ensures SplitOn(x, c) == [x]
  {
    if x != [] {
      SplitWithoutSeparator(x[1..], c);
      assert [x[0]] + x[1..] == x;
    }
  }

  lemma {:induction false} SplitAfterFirst(x: string, c: char, rest: string)
    requires c !in x
    ensures SplitOn(x + [c] + rest, c) == [x] + SplitOn(rest, c)
  {
    var s := x + [c] + rest;
    if x == [] {
      assert s[1..] == rest;
    } else {
      assert s[1..] == x[1..] + [c] + rest;
      SplitAfterFirst(x[1..], c, rest);
      assert [x[0]] + x[1..] == x;
    }
  }

  /** Joining pieces free of `c` with `c` and splitting again gives the pieces back. */
  lemma {:induction false} SplitJoin(parts: seq<string>, c: char)
    requires |parts| >= 1
    requires forall k :: 0 <= k < |parts| ==> c !in parts[k]
    ensures SplitOn(Join(parts, [c]), c) == parts
  {
    if |parts| == 1 {
      SplitWithoutSeparator(parts[0], c);
    } else {
      SplitJoin(parts[1..], c);
      SplitAfterFirst(parts[0], c, Join(parts[1..], [c]));
    }
  }

  /** `s.includes(sub)`. */
  predicate Contains(s: string, sub: string)
    ensures Contains(s, sub) ==> |sub| <= |s|
    decreases |s|
  {
    (|sub| <= |s| && s[..|sub|] == sub) || (|s| > 0 && Contains(s[1..], sub))
  }

  /** `sub` occurs in `s` starting at index `k`. */
  predicate OccursAt(s: string, sub: string, k: int)
  {
    0 <= k <= |s| - |sub| && s[k..k + |sub|] == sub
  }

  lemma {:induction false} ContainsOccurs(s: string, sub: string)
    requires Contains(s, sub)
    ensures exists k :: OccursAt(s, sub, k)
    decreases |s|
  {
    if |sub| <= |s| && s[..|sub|] == sub {
      assert OccursAt(s, sub, 0);
    } else {
      ContainsOccurs(s[1..], sub);
      var k :| OccursAt(s[1..], sub, k);
      assert s[k + 1..k + 1 + |sub|] == s[1..][k..k + |sub|];
      assert OccursAt(s, sub, k + 1);
    }
  }

  lemma {:induction false} OccursContains(s: string, sub: string, k: int)
    requires OccursAt(s, sub, k)
    ensures Contains(s, sub)
    decreases k
  {
    if k == 0 {
      assert s[..|sub|] == s[0..|sub|];
    } else {
      assert s[1..][k - 1..k - 1 + |sub|] == s[k..k + |sub|];
      OccursContains(s[1..], sub, k - 1);
    }
  }

  /** `s.includes(sub)` holds exactly when `sub` occurs in `s` at some index. */
  lemma ContainsIff(s: string, sub: string)
    ensures Contains(s, sub) <==> exists k :: OccursAt(s, sub, k)
  {
    if Contains(s, sub) {
      ContainsOccurs(s, sub);
    }
    if exists k :: OccursAt(s, sub, k) {
      var k :| OccursAt(s, sub, k);
      OccursContains(s, sub, k);
    }
  }

  function Digit(d: nat): (c: char)
    requires d < 10
    ensures '0' <= c <= '9'
  {
    ('0' as int + d) as char
  }

  /** The number a string of decimal digits denotes, most significant digit first. */
  function DecimalValue(s: string): int
  {
    if s == [] then 0 else 10 * DecimalValue(s[..|s| - 1]) + (s[|s| - 1] as int - '0' as int)
  }

  /** The decimal text of a snowflake id, as Discord renders ids: digits that denote the id. */
  function Decimal(n: nat): (r: string)
    ensures |r| >= 1
    ensures forall i :: 0 <= i < |r| ==> '0' <= r[i] <= '9'
    ensures DecimalValue(r) == n
  {
    if n < 10 then [Digit(n)]
    else
      var high := Decimal(n / 10);
      var r := high + [Digit(n % 10)];
      assert r[..|r| - 1] == high;
      r
  }
}
