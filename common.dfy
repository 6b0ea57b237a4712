/** Value types and sequence/string helpers shared by every part of the model:
    an Option type for JavaScript's null, the whitespace trimming of
    String.prototype.trim, and the Array filter/indexOf/slice idioms the
    handlers use. */
module Common {

  datatype Option<+T> = None | Some(value: T)

  /** How an awaited promise ended: the parent-supplied submit functions either
      resolve or reject with an Error whose message is given. */
  datatype Settled = Resolved | Rejected(message: string)

  /** A browser File as the handlers see it: its name, MIME type and size in
      bytes. */
  datatype File = File(name: string, mimeType: string, size: nat)

  // ---------------------------------------------------------------------------
  // Whitespace and trim
  // ---------------------------------------------------------------------------

  /** The characters String.prototype.trim removes: the ECMAScript WhiteSpace
      and LineTerminator code points (tab, line feed, vertical tab, form feed
      and carriage return are U+0009..U+000D; U+2000..U+200A are the
      typographic spaces). */
  predicate IsJsWhitespace(c: char)
  {
    c == ' ' || ('\t' <= c <= '\r') || c == '\U{00A0}' || c == '\U{1680}' ||
    ('\U{2000}' <= c <= '\U{200A}') || c == '\U{2028}' || c == '\U{2029}' ||
    c == '\U{202F}' || c == '\U{205F}' || c == '\U{3000}' || c == '\U{FEFF}'
  }

  predicate AllWhitespace(s: string)
  {
    forall i :: 0 <= i < |s| ==> IsJsWhitespace(s[i])
  }

  /** How many whitespace characters `s` starts with. */
  function LeadingSpace(s: string): (n: nat)
    ensures n <= |s|
  {
    if |s| > 0 && IsJsWhitespace(s[0]) then 1 + LeadingSpace(s[1..]) else 0
  }

  /** How many whitespace characters `s` ends with. */
  function TrailingSpace(s: string): (n: nat)
    ensures n <= |s|
  {
    if |s| > 0 && IsJsWhitespace(s[|s| - 1]) then 1 + TrailingSpace(s[..|s| - 1]) else 0
  }

  /** String.prototype.trim. */
  function Trim(s: string): string
  {
    var t := s[LeadingSpace(s)..];
    t[..|t| - TrailingSpace(t)]
  }

  /** The leading run is all whitespace and is followed by a character that
      is not. */
  lemma {:induction false} LeadingSpaceSpec(s: string)
    ensures AllWhitespace(s[..LeadingSpace(s)])
    ensures LeadingSpace(s) == |s| || !IsJsWhitespace(s[LeadingSpace(s)])
  {
    if |s| > 0 && IsJsWhitespace(s[0]) {
      var t := s[1..];
      LeadingSpaceSpec(t);
      var n := LeadingSpace(t);
      assert LeadingSpace(s) == n + 1;
      WhitespaceCons(s, n);
      if n + 1 < |s| {
        assert s[n + 1] == t[n];
      }
    }
  }

  lemma WhitespaceCons(s: string, n: nat)
    requires n < |s| && IsJsWhitespace(s[0]) && AllWhitespace(s[1..][..n])
    ensures AllWhitespace(s[..n + 1])
  {
    var w := s[..n + 1];
    forall i | 0 <= i < |w| ensures IsJsWhitespace(w[i]) {
      if i > 0 { assert w[i] == s[1..][..n][i - 1]; }
    }
  }

  /** The trailing run is all whitespace and is preceded by a character that
      is not. */
  lemma {:induction false} TrailingSpaceSpec(s: string)
    ensures AllWhitespace(s[|s| - TrailingSpace(s)..])
    ensures TrailingSpace(s) == |s| || !IsJsWhitespace(s[|s| - TrailingSpace(s) - 1])
  {
    if |s| > 0 && IsJsWhitespace(s[|s| - 1]) {
      var u := s[..|s| - 1];
      TrailingSpaceSpec(u);
      var n := TrailingSpace(u);
      var w := s[|s| - (n + 1)..];
      forall i | 0 <= i < |w| ensures IsJsWhitespace(w[i]) {
        if i < n { assert w[i] == u[|u| - n..][i]; }
      }
    }
  }

  /** Trim yields the part of `s` between a whitespace prefix and a whitespace
      suffix, and that part neither starts nor ends with whitespace. */
  lemma TrimIsInfix(s: string)
    ensures exists i, j :: (0 <= i <= j <= |s| && Trim(s) == s[i..j] &&
                            AllWhitespace(s[..i]) && AllWhitespace(s[j..]))
    ensures Trim(s) == "" || (!IsJsWhitespace(Trim(s)[0]) && !IsJsWhitespace(Trim(s)[|Trim(s)| - 1]))
  {
    var i := LeadingSpace(s);
    var k := TrailingSpace(s[i..]);
    TrimCuts(s, i, k);
    assert 0 <= i <= |s| - k <= |s| && Trim(s) == s[i..|s| - k];
  }

  /** Trim(s) is s without its leading run and then the trailing run of what
      is left; the runs are whitespace and the cut stops at non-whitespace. */
  lemma TrimCuts(s: string, i: nat, k: nat)
    requires i == LeadingSpace(s) && k == TrailingSpace(s[i..])
    ensures k <= |s| - i && Trim(s) == s[i..|s| - k]
    ensures AllWhitespace(s[..i]) && AllWhitespace(s[|s| - k..])
    ensures i < |s| - k ==> !IsJsWhitespace(Trim(s)[0]) && !IsJsWhitespace(Trim(s)[|s| - k - i - 1])
  {
    var t := s[i..];
    LeadingSpaceSpec(s);
    TrailingSpaceSpec(t);
    InfixSlices(s, i, k);
  }

  /** Cutting i characters off the front and then k off the back. */
  lemma InfixSlices(s: string, i: nat, k: nat)
    requires i <= |s| && k <= |s| - i
    ensures s[i..][..|s| - i - k] == s[i..|s| - k]
    ensures s[|s| - k..] == s[i..][|s| - i - k..]
    ensures i < |s| - k ==> s[i..|s| - k][0] == s[i]
    ensures i < |s| - k ==> s[i..|s| - k][|s| - k - i - 1] == s[i..][|s| - i - k - 1]
  {
  }

  /** A string trims to "" exactly when every character is whitespace: this is
      the emptiness test `if (!x.trim())` of the forms. */
  lemma TrimEmptyIff(s: string)
    ensures Trim(s) == "" <==> AllWhitespace(s)
  {
    TrimIsInfix(s);
    var i, j :| 0 <= i <= j <= |s| && Trim(s) == s[i..j] && AllWhitespace(s[..i]) && AllWhitespace(s[j..]);
    if Trim(s) == "" {
      forall k | 0 <= k < |s| ensures IsJsWhitespace(s[k]) {
        if k < i { assert s[..i][k] == s[k]; } else { assert s[j..][k - j] == s[k]; }
      }
    } else {
      assert s[i] == Trim(s)[0];
    }
  }

  /** Trimming twice is trimming once. */
  lemma TrimIdempotent(s: string)
    ensures Trim(Trim(s)) == Trim(s)
  {
    TrimIsInfix(s);
    var r := Trim(s);
    if r != "" {
      assert LeadingSpace(r) == 0;
      assert TrailingSpace(r) == 0;
    }
  }

  // ---------------------------------------------------------------------------
  // Sequence helpers
  // ---------------------------------------------------------------------------

  /** Array.prototype.indexOf: the first position of x, or -1. */
  function IndexOf<T(==)>(s: seq<T>, x: T): (r: int)
    ensures -1 <= r < |s|
    ensures r == -1 <==> x !in s
    ensures r >= 0 ==> s[r] == x && forall k :: 0 <= k < r ==> s[k] != x
  {
    if |s| == 0 then -1
    else if s[0] == x then 0
    else
      var k := IndexOf(s[1..], x);
      if k == -1 then -1 else k + 1
  }

  /** `s.filter((_, i) => i !== index)`: drops the element at `index`, and
      changes nothing when `index` is out of range. */
  function RemoveAt<T>(s: seq<T>, index: int): (r: seq<T>)
    ensures 0 <= index < |s| ==> |r| == |s| - 1
    ensures 0 <= index < |s| ==> forall k :: 0 <= k < |r| ==> r[k] == (if k < index then s[k] else s[k + 1])
    ensures !(0 <= index < |s|) ==> r == s
  {
    if 0 <= index < |s| then s[..index] + s[index + 1..] else s
  }

  /** `s.filter(y => y !== x)`. */
  function RemoveAll<T(==)>(s: seq<T>, x: T): (r: seq<T>)
    ensures forall y :: y in r ==> y in s && y != x
    ensures forall k :: 0 <= k < |s| && s[k] != x ==> s[k] in r
    ensures |r| <= |s|
  {
    if |s| == 0 then []
    else if s[0] == x then RemoveAll(s[1..], x)
    else [s[0]] + RemoveAll(s[1..], x)
  }

  /** `s.filter(y => !excluded.includes(y))`. */
  function Without<T(==)>(s: seq<T>, excluded: seq<T>): (r: seq<T>)
    ensures forall y :: y in r ==> y in s && y !in excluded
    ensures forall k :: 0 <= k < |s| && s[k] !in excluded ==> s[k] in r
    ensures |r| <= |s|
  {
    if |s| == 0 then []
    else if s[0] in excluded then Without(s[1..], excluded)
    else [s[0]] + Without(s[1..], excluded)
  }

  /** `s.slice(0, n)`. */
  function Take<T>(s: seq<T>, n: nat): (r: seq<T>)
    ensures |r| == if n < |s| then n else |s|
    ensures r == s[..|r|]
  {
    if n < |s| then s[..n] else s
  }

  predicate Distinct<T(==)>(s: seq<T>)
  {
    forall i, j :: 0 <= i < j < |s| ==> s[i] != s[j]
  }

  predicate StartsWith(s: string, prefix: string)
  {
    |prefix| <= |s| && s[..|prefix|] == prefix
  }

  lemma StartsWithConcat(a: string, b: string)
    ensures StartsWith(a + b, a)
  {
    assert (a + b)[..|a|] == a;
  }

  /** `s.includes(sub)` on strings. */
  predicate Contains(s: string, sub: string)
    decreases |s|
  {
    StartsWith(s, sub) || (|s| > 0 && Contains(s[1..], sub))
  }

  /** `sub` occurs in `s` starting at position i. */
  predicate OccursAt(s: string, sub: string, i: int)
  {
    0 <= i <= |s| - |sub| && s[i..i + |sub|] == sub
  }

  /** `includes` finds the text at some position. */
  lemma {:induction false} ContainsIffOccurs(s: string, sub: string)
    ensures Contains(s, sub) <==> exists i :: OccursAt(s, sub, i)
    decreases |s|
  {
    if StartsWith(s, sub) {
      assert OccursAt(s, sub, 0);
    } else if |s| > 0 {
      ContainsIffOccurs(s[1..], sub);
      if exists i :: OccursAt(s, sub, i) {
        var i :| OccursAt(s, sub, i);
        assert i != 0 by {
          assert s[0..|sub|] == s[..|sub|];
        }
        assert s[1..][i - 1..i - 1 + |sub|] == s[i..i + |sub|];
        assert OccursAt(s[1..], sub, i - 1);
      }
      if Contains(s[1..], sub) {
        var j :| OccursAt(s[1..], sub, j);
        assert s[1..][j..j + |sub|] == s[j + 1..j + 1 + |sub|];
        assert OccursAt(s, sub, j + 1);
      }
    }
  }

  /** Removing every copy of an element that occurs only at position i is
      removing position i. */
  lemma RemoveAllSingle<T>(s: seq<T>, i: nat)
    requires i < |s| && s[i] !in s[..i] && s[i] !in s[i + 1..]
    ensures RemoveAll(s, s[i]) == RemoveAt(s, i)
  {
    SplitAtIndex(s, i);
    RemoveAllOnce(s[..i], s[i], s[i + 1..]);
  }

  lemma SplitAtIndex<T>(s: seq<T>, i: nat)
    requires i < |s|
    ensures s == s[..i] + ([s[i]] + s[i + 1..])
  {
  }

  /** Filtering out an element that occurs once, between `before` and
      `after`, leaves `before` followed by `after`. */
  lemma RemoveAllOnce<T>(before: seq<T>, x: T, after: seq<T>)
    requires x !in before && x !in after
    ensures RemoveAll(before + ([x] + after), x) == before + after
  {
    var rest := [x] + after;
    assert rest[0] == x && rest[1..] == after;
    calc {
      RemoveAll(before + rest, x);
      { RemoveAllAppend(before, rest, x); }
      RemoveAll(before, x) + RemoveAll(rest, x);
      RemoveAll(before, x) + RemoveAll(after, x);
      { RemoveAllAbsent(before, x); RemoveAllAbsent(after, x); }
      before + after;
    }
  }

  /** In a list without repeats, an element occurs neither before nor after
      its own position. */
  lemma DistinctOccursOnce<T>(s: seq<T>, i: nat)
    requires Distinct(s) && i < |s|
    ensures s[i] !in s[..i] && s[i] !in s[i + 1..]
  {
    var before, after := s[..i], s[i + 1..];
    forall k | 0 <= k < |before| ensures before[k] != s[i] { assert before[k] == s[k]; }
    forall k | 0 <= k < |after| ensures after[k] != s[i] { assert after[k] == s[i + 1 + k]; }
  }

  /** Filtering distributes over concatenation. */
  lemma {:induction false} RemoveAllAppend<T>(a: seq<T>, b: seq<T>, x: T)
    ensures RemoveAll(a + b, x) == RemoveAll(a, x) + RemoveAll(b, x)
  {
    if |a| == 0 {
      assert a + b == b;
    } else {
      ConsOfConcat(a, b);
      RemoveAllAppend(a[1..], b, x);
      var h := if a[0] == x then [] else [a[0]];
      RemoveAllCons(a + b, x);
      RemoveAllCons(a, x);
      ConcatAssoc(h, RemoveAll(a[1..], x), RemoveAll(b, x));
    }
  }

  lemma ConcatAssoc<T>(a: seq<T>, b: seq<T>, c: seq<T>)
    ensures a + (b + c) == (a + b) + c
  {
  }

  lemma RemoveAllCons<T>(s: seq<T>, x: T)
    requires |s| > 0
    ensures RemoveAll(s, x) == (if s[0] == x then [] else [s[0]]) + RemoveAll(s[1..], x)
  {
  }

  lemma WithoutCons<T>(s: seq<T>, excluded: seq<T>)
    requires |s| > 0
    ensures Without(s, excluded) == (if s[0] in excluded then [] else [s[0]]) + Without(s[1..], excluded)
  {
  }

  lemma ConsOfConcat<T>(a: seq<T>, b: seq<T>)
    requires |a| > 0
    ensures (a + b)[0] == a[0] && (a + b)[1..] == a[1..] + b
  {
  }

  lemma {:induction false} RemoveAllAbsent<T>(s: seq<T>, x: T)
    requires x !in s
    ensures RemoveAll(s, x) == s
  {
    if |s| > 0 {
      assert s[1..] + [] == s[1..];
      RemoveAllAbsent(s[1..], x);
      assert [s[0]] + s[1..] == s;
    }
  }

  /** Filtering distributes over concatenation, so Without keeps the order of
      what it keeps. */
  lemma {:induction false} WithoutAppend<T>(a: seq<T>, b: seq<T>, excluded: seq<T>)
    ensures Without(a + b, excluded) == Without(a, excluded) + Without(b, excluded)
  {
    if |a| == 0 {
      assert a + b == b;
    } else {
      ConsOfConcat(a, b);
      WithoutAppend(a[1..], b, excluded);
      WithoutCons(a + b, excluded);
      WithoutCons(a, excluded);
      var h := if a[0] in excluded then [] else [a[0]];
      ConcatAssoc(h, Without(a[1..], excluded), Without(b, excluded));
    }
  }

  /** Filtering out a superset of the elements leaves nothing. */
  lemma {:induction false} WithoutEverything<T>(s: seq<T>, excluded: seq<T>)
    requires forall k :: 0 <= k < |s| ==> s[k] in excluded
    ensures Without(s, excluded) == []
  {
    if |s| > 0 {
      WithoutEverything(s[1..], excluded);
    }
  }

  lemma {:induction false} WithoutNothing<T>(s: seq<T>)
    ensures Without(s, []) == s
  {
    if |s| > 0 {
      WithoutNothing(s[1..]);
      assert [s[0]] + s[1..] == s;
    }
  }

  /** A nullable text that JavaScript reads as true: set and not empty. */
  predicate Truthy(u: Option<string>)
  {
    u.Some? && u.value != ""
  }

  /** Decimal rendering of a natural number, as template literals print it. */
  function NatToString(n: nat): (r: string)
    ensures |r| > 0
    ensures forall i :: 0 <= i < |r| ==> '0' <= r[i] <= '9'
  {
    var d := [(('0' as int) + n % 10) as char];
    if n < 10 then d else NatToString(n / 10) + d
  }

  function IntToString(n: int): (r: string)
    ensures |r| > 0
  {
    if n < 0 then "-" + NatToString(-n) else NatToString(n)
  }

  /** Adding an entry to a text list (a blog paragraph, a service detail):
      the trimmed draft, if it is not blank. */
  function WithDraft(items: seq<string>, draft: string): (r: seq<string>)
    ensures AllWhitespace(draft) ==> r == items
    ensures !AllWhitespace(draft) ==> |r| == |items| + 1 && r[..|items|] == items && r[|items|] == Trim(draft)
  {
    TrimEmptyIff(draft);
    if Trim(draft) != "" then items + [Trim(draft)] else items
  }

  /** What an added entry holds has no surrounding whitespace and is not
      empty. */
  lemma AddedItemIsTrimmed(items: seq<string>, draft: string)
    requires !AllWhitespace(draft)
    ensures var r := WithDraft(items, draft);
      r[|items|] != "" && Trim(r[|items|]) == r[|items|]
  {
    TrimEmptyIff(draft);
    TrimIdempotent(draft);
  }
}
