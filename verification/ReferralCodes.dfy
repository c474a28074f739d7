/** Referral codes: base-36 numerals with a random tail, and the backfill that gives every customer one. */
module ReferralCodes {
  import opened Results

  const SUFFIX_LENGTH := 4

  // --- numerals -------------------------------------------------------------

  /** The d-th character of "0123456789abcdefghijklmnopqrstuvwxyz". */
  function CharOf(d: nat): char
    requires d < 36
  {
    if d < 10 then ('0' as int + d) as char else ('a' as int + d - 10) as char
  }

  function DigitOf(c: char): int {
    if c < 'a' then c as int - '0' as int else c as int - 'a' as int + 10
  }

  function Numeral(n: nat, base: nat): (s: string)
    requires 2 <= base <= 36
    ensures s != ""
  {
    if n < base then [CharOf(n)] else Numeral(n / base, base) + [CharOf(n % base)]
  }

  function Parse(s: string, base: nat): int {
    if s == "" then 0 else Parse(s[..|s| - 1], base) * base + DigitOf(s[|s| - 1])
  }

  lemma CharsListed(d: nat)
    requires d < 36
    ensures CharOf(d) == "0123456789abcdefghijklmnopqrstuvwxyz"[d]
  {
    var digits, letters := "0123456789", "abcdefghijklmnopqrstuvwxyz";
    assert "0123456789abcdefghijklmnopqrstuvwxyz" == digits + letters;
    if d < 10 {
      assert forall i | 0 <= i < 10 :: digits[i] == ('0' as int + i) as char;
    } else {
      assert forall i | 0 <= i < 26 :: letters[i] == ('a' as int + i) as char;
    }
  }

  lemma CharRoundTrip(d: nat)
    requires d < 36
    ensures DigitOf(CharOf(d)) == d
  {
  }

  lemma ParseAppend(s: string, c: char, base: nat)
    ensures Parse(s + [c], base) == Parse(s, base) * base + DigitOf(c)
  {
    assert (s + [c])[..|s|] == s;
  }

  lemma Division(n: nat, base: nat)
    requires 2 <= base <= n
    ensures n == n / base * base + n % base
    ensures n / base < n
  {
  }

  /** One more digit on a numeral that reads back as `q`. */
  lemma ParseDigit(s: string, q: int, r: nat, base: nat)
    requires r < 36 && Parse(s, base) == q
    ensures Parse(s + [CharOf(r)], base) == q * base + r
  {
    ParseAppend(s, CharOf(r), base);
    CharRoundTrip(r);
  }

  lemma {:induction false} ParseNumeral(n: nat, base: nat)
    requires 2 <= base <= 36
    ensures Parse(Numeral(n, base), base) == n
    decreases n
  {
    if n < base {
      ParseDigit("", 0, n, base);
      assert "" + [CharOf(n)] == [CharOf(n)];
    } else {
      Division(n, base);
      ParseNumeral(n / base, base);
      ParseDigit(Numeral(n / base, base), n / base, n % base, base);
    }
  }

  lemma NumeralInjective(m: nat, n: nat, base: nat)
    requires 2 <= base <= 36 && Numeral(m, base) == Numeral(n, base)
    ensures m == n
  {
    ParseNumeral(m, base);
    ParseNumeral(n, base);
  }

  predicate IsDecimal(s: string) {
    s != "" && (forall i | 0 <= i < |s| :: '0' <= s[i] <= '9') && (|s| > 1 ==> s[0] != '0')
  }

  lemma {:induction false} NumeralIsDecimal(n: nat)
    ensures IsDecimal(Numeral(n, 10)) && (n > 0 ==> Numeral(n, 10)[0] != '0')
    decreases n
  {
    if n >= 10 {
      NumeralIsDecimal(n / 10);
    }
  }

  function Reverse(s: string): string {
    if s == "" then "" else Reverse(s[1..]) + [s[0]]
  }

  lemma {:induction false} ReverseAppend(s: string, c: char)
    ensures Reverse(s + [c]) == [c] + Reverse(s)
  {
    if s != "" {
      assert (s + [c])[1..] == s[1..] + [c];
      ReverseAppend(s[1..], c);
    } else {
      assert s + [c] == [c] && [c][1..] == "";
    }
  }

  function Abs(n: int): nat {
    if n < 0 then -n else n
  }

  method ToBase36(id: int) returns (s: string)
    ensures s == Numeral(Abs(id), 36)
  {
    var n: nat := Abs(id);
    if n == 0 { return "0"; }
    var out := "";
    while n != 0
      invariant n == 0 ==> Reverse(out) == Numeral(Abs(id), 36)
      invariant n > 0 ==> Numeral(n, 36) + Reverse(out) == Numeral(Abs(id), 36)
      decreases n
    {
      var r := n % 36;
      ReverseAppend(out, CharOf(r));
      assert n >= 36 ==> Numeral(n, 36) + Reverse(out) == Numeral(n / 36, 36) + ([CharOf(r)] + Reverse(out));
      n := n / 36;
      out := out + [CharOf(r)];
    }
    s := Reverse(out);
  }

  function Code(id: int, suffix: string): string {
    Numeral(Abs(id), 36) + suffix
  }

  /** A code ends with its random tail and reads back as the size of the id in front of it. */
  lemma CodeReads(id: int, suffix: string)
    requires |suffix| == 4
    ensures |Code(id, suffix)| > 4 && Code(id, suffix)[|Code(id, suffix)| - 4..] == suffix
    ensures Parse(Code(id, suffix)[..|Code(id, suffix)| - 4], 36) == if id < 0 then -id else id
  {
    ParseNumeral(Abs(id), 36);
    assert Code(id, suffix)[..|Code(id, suffix)| - 4] == Numeral(Abs(id), 36);
  }

  /** Two customers can only ever share a code when their ids have the same size, whatever the random tails are. */
  lemma CodesCollideIff(id1: int, id2: int)
    ensures
      (exists s1: string, s2: string ::
        |s1| == 4 && |s2| == 4 && Code(id1, s1) == Code(id2, s2))
      <==> Abs(id1) == Abs(id2)
  {
    forall s1: string, s2: string |
      |s1| == SUFFIX_LENGTH && |s2| == SUFFIX_LENGTH && Code(id1, s1) == Code(id2, s2)
      ensures Abs(id1) == Abs(id2)
    {
      var c1, c2 := Code(id1, s1), Code(id2, s2);
      assert c1[..|c1| - SUFFIX_LENGTH] == Numeral(Abs(id1), 36);
      assert c2[..|c2| - SUFFIX_LENGTH] == Numeral(Abs(id2), 36);
      NumeralInjective(Abs(id1), Abs(id2), 36);
    }
    if Abs(id1) == Abs(id2) {
      assert |"0000"| == SUFFIX_LENGTH && Code(id1, "0000") == Code(id2, "0000");
    }
  }

  // --- backfill -------------------------------------------------------------

  /** What the backfill tries: the drawn code, then the code with 1, 2, ... behind it. */
  function Candidate(base: string, n: nat): string {
    if n == 0 then base else base + Numeral(n, 10)
  }

  /** The first candidate is the drawn code; the others have the number of tries behind it, in decimal. */
  lemma CandidateReads(base: string, n: nat)
    ensures Candidate(base, 0) == base
    ensures n > 0 ==>
      && base <= Candidate(base, n)
      && IsDecimal(Candidate(base, n)[|base|..]) && Parse(Candidate(base, n)[|base|..], 10) == n
  {
    NumeralIsDecimal(n);
    ParseNumeral(n, 10);
    if n > 0 {
      assert Candidate(base, n)[|base|..] == Numeral(n, 10);
    }
  }

  lemma CandidatesDiffer(base: string, m: nat, n: nat)
    requires m < n
    ensures Candidate(base, m) != Candidate(base, n)
  {
    if Candidate(base, m) == Candidate(base, n) {
      if m > 0 {
        assert Candidate(base, m)[|base|..] == Numeral(m, 10);
        assert Candidate(base, n)[|base|..] == Numeral(n, 10);
        NumeralInjective(m, n, 10);
      }
    }
  }

  lemma SubsetSize(small: set<string>, large: set<string>)
    requires small <= large
    ensures |small| <= |large|
  {
    if small != {} {
      var x :| x in small;
      SubsetSize(small - {x}, large - {x});
    }
  }

  /** The first free candidate; distinct candidates cannot all be taken, so at most |used| are skipped. */
  method FreeCandidate(base: string, used: set<string>) returns (code: string, n: nat)
    ensures code == Candidate(base, n) && code !in used
    ensures n <= |used|
    ensures forall k | 0 <= k < n :: Candidate(base, k) in used
  {
    code, n := base, 0;
    ghost var skipped: set<string> := {};
    while code in used
      invariant code == Candidate(base, n)
      invariant skipped <= used && |skipped| == n
      invariant skipped == set k | 0 <= k < n :: Candidate(base, k)
      decreases |used| - n
    {
      forall k | 0 <= k < n
        ensures Candidate(base, k) != code
      {
        CandidatesDiffer(base, k, n);
      }
      skipped := skipped + {code};
      SubsetSize(skipped, used);
      n := n + 1;
      code := base + Numeral(n, 10);
    }
    forall k | 0 <= k < n
      ensures Candidate(base, k) in used
    {
      assert Candidate(base, k) in skipped;
    }
    SubsetSize(skipped, used);
  }

  predicate HasCode(codes: map<int, Option<string>>, u: int)
    requires u in codes
  {
    codes[u].Some? && codes[u].value != ""
  }

  ghost predicate Distinct(codes: map<int, Option<string>>) {
    forall u, v | u in codes && v in codes && HasCode(codes, u) && codes[u] == codes[v] :: u == v
  }

  /**
   The user's code starts with the numeral of their id and the drawn tail, and ends with the number
   of tries, if any.
   */
  ghost predicate IsDrawn(codes: map<int, Option<string>>, u: int, draw: int -> string) {
    u in codes && exists n: nat ::
      codes[u] == Some(Candidate(Code(u, draw(u)), n))
  }

  lemma DrawnStays(codes: map<int, Option<string>>, user: int, code: string, draw: int -> string, u: int)
    requires IsDrawn(codes, u, draw) && u != user
    ensures IsDrawn(codes[user := Some(code)], u, draw)
  {
    var k: nat :| codes[u] == Some(Candidate(Code(u, draw(u)), k));
    assert codes[user := Some(code)][u] == Some(Candidate(Code(u, draw(u)), k));
  }

  /** The referral_code column of the users table. */
  class UserCodes {
    var codes: map<int, Option<string>>

    /** Give the user the first code that is free. */
    method GiveCode(user: int, draw: int -> string, used: set<string>) returns (code: string)
      requires user in codes
      modifies this
      ensures code !in used && code != "" && codes == old(codes)[user := Some(code)]
      ensures IsDrawn(codes, user, draw)
    {
      var start := ToBase36(user);
      start := start + draw(user);
      var n;
      code, n := FreeCandidate(start, used);
      codes := codes[user := Some(code)];
      assert codes[user] == Some(Candidate(Code(user, draw(user)), n));
    }

    /** `rows` is the query for users without a code, `draw` the random tail for each of them. */
    method Backfill(rows: seq<int>, draw: int -> string)
      requires Distinct(codes)
      requires forall u :: u in rows <==> u in codes && !HasCode(codes, u)
      modifies this
      ensures codes.Keys == old(codes).Keys
      ensures forall u | u in codes :: HasCode(codes, u)
      ensures Distinct(codes)
      ensures forall u | u in codes && HasCode(old(codes), u) :: codes[u] == old(codes)[u]
      ensures forall u | u in codes && !HasCode(old(codes), u) :: IsDrawn(codes, u, draw)
    {
      var used := set u | u in codes && HasCode(codes, u) :: codes[u].value;
      for i := 0 to |rows|
        invariant codes.Keys == old(codes).Keys
        invariant Distinct(codes)
        invariant forall u | u in codes :: HasCode(codes, u) ==> codes[u].value in used
        invariant forall u | u in codes && HasCode(old(codes), u) :: codes[u] == old(codes)[u]
        invariant forall k | 0 <= k < i :: HasCode(codes, rows[k])
        invariant forall k | 0 <= k < i :: IsDrawn(codes, rows[k], draw)
      {
        var user := rows[i];
        assert user in rows;
        ghost var before := codes;
        var code := GiveCode(user, draw, used);
        used := used + {code};
        forall k | 0 <= k < i
          ensures IsDrawn(codes, rows[k], draw)
        {
          if rows[k] != user {
            DrawnStays(before, user, code, draw, rows[k]);
          }
        }
      }
    }
  }
}
