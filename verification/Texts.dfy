/** The string operations of the standard library that the tools use, on ASCII letters and whitespace. */
module Texts {
  predicate IsSpace(c: char) { c in {' ', '\t', '\n', '\r', '\U{0B}', '\U{0C}'} }

  function TrimStart(s: string): string {
    if s != "" && IsSpace(s[0]) then TrimStart(s[1..]) else s
  }

  function TrimEnd(s: string): string {
    if s != "" && IsSpace(s[|s| - 1]) then TrimEnd(s[..|s| - 1]) else s
  }

  function Trim(s: string): string { TrimEnd(TrimStart(s)) }

  function LowerChar(c: char): char {
    if 'A' <= c <= 'Z' then (c as int + 32) as char else c
  }

  function Lower(s: string): (r: string)
    ensures |r| == |s|
  {
    if s == "" then "" else [LowerChar(s[0])] + Lower(s[1..])
  }

  function IndexOf(s: string, c: char): (i: nat)
    requires c in s
    ensures i < |s| && s[i] == c && c !in s[..i]
  {
    if s[0] == c then 0 else 1 + IndexOf(s[1..], c)
  }

  /** The pieces of `s` between the occurrences of `c`. */
  function Split(s: string, c: char): (parts: seq<string>)
    ensures parts != []
    decreases |s|
  {
    if c !in s then [s] else [s[..IndexOf(s, c)]] + Split(s[IndexOf(s, c) + 1..], c)
  }

  lemma {:induction false} IndexAfter(a: string, c: char, b: string)
    requires c !in a
    ensures c in a + [c] + b && IndexOf(a + [c] + b, c) == |a|
    decreases |a|
  {
    var s := a + [c] + b;
    assert s[|a|] == c;
    if a == "" {
    } else {
      assert s[0] == a[0] && a[0] in a && s[1..] == a[1..] + [c] + b;
      IndexAfter(a[1..], c, b);
    }
  }

  lemma SplitFirst(a: string, c: char, b: string)
    requires c !in a
    ensures Split(a + [c] + b, c) == [a] + Split(b, c)
  {
    IndexAfter(a, c, b);
    var s := a + [c] + b;
    assert s[..|a|] == a && s[|a| + 1..] == b;
  }

  function Join(parts: seq<string>, c: char): string {
    if parts == [] then "" else if |parts| == 1 then parts[0] else parts[0] + [c] + Join(parts[1..], c)
  }

  lemma {:induction false} SplitJoin(parts: seq<string>, c: char)
    requires parts != [] && forall part | part in parts :: c !in part
    ensures Split(Join(parts, c), c) == parts
    decreases |parts|
  {
    if |parts| == 1 {
      assert parts == [parts[0]];
    } else {
      SplitJoin(parts[1..], c);
      SplitFirst(parts[0], c, Join(parts[1..], c));
      assert parts == [parts[0]] + parts[1..];
    }
  }

  lemma {:induction false} JoinMore(parts: seq<string>, part: string, c: char)
    requires parts != []
    ensures Join(parts + [part], c) == Join(parts, c) + [c] + part
    decreases |parts|
  {
    if |parts| == 1 {
      assert (parts + [part])[1..] == [part];
    } else {
      assert (parts + [part])[1..] == parts[1..] + [part];
      JoinMore(parts[1..], part, c);
    }
  }

  /** `more` has the pieces of `parts`, except that its last one may be longer and others may follow. */
  predicate Extends(parts: seq<string>, more: seq<string>) {
    0 < |parts| <= |more| && parts[..|parts| - 1] == more[..|parts| - 1]
    && parts[|parts| - 1] <= more[|parts| - 1]
  }

  lemma ExtendsBehind(part: string, parts: seq<string>, more: seq<string>)
    requires Extends(parts, more)
    ensures Extends([part] + parts, [part] + more)
  {
    var last := |parts| - 1;
    assert ([part] + parts)[..last + 1] == [part] + parts[..last];
    assert ([part] + more)[..last + 1] == [part] + more[..last];
  }

  /** Text added at the end leaves all pieces but the last alone, and only extends that one. */
  lemma {:induction false} SplitMore(a: string, b: string, c: char)
    ensures Extends(Split(a, c), Split(a + b, c))
    decreases |a|
  {
    if c in a {
      hide Split;
      var i := IndexOf(a, c);
      assert a == a[..i] + [c] + a[i + 1..] && a + b == a[..i] + [c] + (a[i + 1..] + b);
      SplitFirst(a[..i], c, a[i + 1..]);
      SplitFirst(a[..i], c, a[i + 1..] + b);
      SplitMore(a[i + 1..], b, c);
      hide Extends;
      ExtendsBehind(a[..i], Split(a[i + 1..], c), Split(a[i + 1..] + b, c));
    } else {
      FirstPiece(a, b, c);
    }
  }

  lemma FirstPiece(a: string, b: string, c: char)
    requires c !in a
    ensures Split(a, c) == [a] && a <= Split(a + b, c)[0]
  {
    if c in b {
      var i := IndexOf(b, c);
      assert a + b == (a + b[..i]) + [c] + b[i + 1..];
      SplitFirst(a + b[..i], c, b[i + 1..]);
    }
  }

  lemma Regrouped(first: string, c: char, rest: string, b: string)
    ensures first + [c] + rest + [c] + b == first + [c] + (rest + [c] + b)
  {
  }

  lemma SplitLater(first: string, c: char, rest: string, b: string)
    requires c !in first && Split(rest + [c] + b, c) == Split(rest, c) + Split(b, c)
    ensures Split(first + [c] + rest + [c] + b, c) == Split(first + [c] + rest, c) + Split(b, c)
  {
    hide Split;
    Regrouped(first, c, rest, b);
    SplitFirst(first, c, rest);
    SplitFirst(first, c, rest + [c] + b);
  }

  lemma {:induction false} SplitAtSeparator(a: string, c: char, b: string)
    ensures Split(a + [c] + b, c) == Split(a, c) + Split(b, c)
    decreases |a|
  {
    hide Split;
    if c in a {
      var i := IndexOf(a, c);
      SplitAtSeparator(a[i + 1..], c, b);
      SplitLater(a[..i], c, a[i + 1..], b);
      assert a == a[..i] + [c] + a[i + 1..];
    } else {
      SplitFirst(a, c, b);
      NoSeparator(a, c);
    }
  }

  lemma NoSeparator(s: string, c: char)
    requires c !in s
    ensures Split(s, c) == [s]
  {
  }

  // ---- what trimming and lower case mean ----

  /** The ASCII white space: the code points 9 to 13, and the space. */
  predicate IsBlank(c: char) { 9 <= c as int <= 13 || c as int == 32 }

  predicate AllBlank(s: string) { forall c | c in s :: IsBlank(c) }

  /** `t` is what is left of `s` without the white space at both ends. */
  ghost predicate IsTrimOf(s: string, t: string) {
    (t == "" || (!IsBlank(t[0]) && !IsBlank(t[|t| - 1])))
    && exists before, after :: AllBlank(before) && AllBlank(after) && s == before + t + after
  }

  lemma {:induction false} StartIsTrimmed(s: string) returns (before: string)
    ensures AllBlank(before) && s == before + TrimStart(s)
    ensures TrimStart(s) == "" || !IsBlank(TrimStart(s)[0])
  {
    if s == "" || !IsSpace(s[0]) {
      before := "";
    } else {
      before := StartIsTrimmed(s[1..]);
      before := [s[0]] + before;
    }
  }

  lemma {:induction false} EndIsTrimmed(s: string) returns (after: string)
    ensures AllBlank(after) && s == TrimEnd(s) + after
    ensures TrimEnd(s) == "" || !IsBlank(TrimEnd(s)[|TrimEnd(s)| - 1])
  {
    if s == "" || !IsSpace(s[|s| - 1]) {
      after := "";
    } else {
      after := EndIsTrimmed(s[..|s| - 1]);
      after := after + [s[|s| - 1]];
    }
  }

  lemma {:induction false} BlanksInFront(before: string, t: string)
    requires AllBlank(before) && (t == "" || !IsBlank(t[0]))
    ensures TrimStart(before + t) == t
    decreases |before|
  {
    if before == "" {
      assert before + t == t;
    } else {
      assert IsBlank(before[0]) && (before + t)[1..] == before[1..] + t;
      BlanksInFront(before[1..], t);
    }
  }

  lemma {:induction false} BlanksBehind(t: string, after: string)
    requires AllBlank(after) && (t == "" || !IsBlank(t[|t| - 1]))
    ensures TrimEnd(t + after) == t
    decreases |after|
  {
    if after == "" {
      assert t + after == t;
    } else {
      var n := |after| - 1;
      assert IsBlank(after[n]) && (t + after)[..|t| + n] == t + after[..n];
      BlanksBehind(t, after[..n]);
    }
  }

  lemma TrimIff(s: string, t: string)
    ensures Trim(s) == t <==> IsTrimOf(s, t)
  {
    if Trim(s) == t {
      var before := StartIsTrimmed(s);
      var after := EndIsTrimmed(TrimStart(s));
      assert s == before + t + after;
    }
    if IsTrimOf(s, t) {
      var before, after :| AllBlank(before) && AllBlank(after) && s == before + t + after;
      if t == "" {
        BlanksInFront(before + after, "");
        assert s == before + after + "";
      } else {
        assert s == before + (t + after);
        BlanksInFront(before, t + after);
        BlanksBehind(t, after);
      }
    }
  }

  lemma TrimStays(s: string)
    requires s != "" && !IsBlank(s[0]) && !IsBlank(s[|s| - 1])
    ensures Trim(s) == s
  {
    assert s == "" + s + "" && AllBlank("");
    TrimIff(s, s);
  }

  lemma BlankIff(s: string)
    ensures Trim(s) == "" <==> AllBlank(s)
  {
    TrimIff(s, "");
    if AllBlank(s) {
      assert s == s + "" + "" && AllBlank("");
    }
  }

  /** Equal, or the same letter in upper and in lower case. */
  predicate SameLetter(c: char, d: char) {
    c == d || (65 <= c as int <= 90 && d as int == c as int + 32) || (65 <= d as int <= 90 && c as int == d as int + 32)
  }

  predicate SameLetters(a: string, b: string) {
    |a| == |b| && forall i | 0 <= i < |a| :: SameLetter(a[i], b[i])
  }

  lemma {:induction false} LowerIff(a: string, b: string)
    ensures Lower(a) == Lower(b) <==> SameLetters(a, b)
    decreases |a|
  {
    if a == "" || b == "" {
    } else {
      LowerIff(a[1..], b[1..]);
      assert Lower(a) == [LowerChar(a[0])] + Lower(a[1..]) && Lower(b) == [LowerChar(b[0])] + Lower(b[1..]);
      assert Lower(a) == Lower(b) <==> Lower(a)[0] == Lower(b)[0] && Lower(a)[1..] == Lower(b)[1..];
      assert SameLetters(a, b) <==> SameLetter(a[0], b[0]) && SameLetters(a[1..], b[1..]) by {
        assert forall i | 1 <= i < |a| && |a| == |b| :: a[i] == a[1..][i - 1] && b[i] == b[1..][i - 1];
      }
    }
  }

  lemma {:induction false} LowerAt(s: string, i: nat)
    requires i < |s|
    ensures Lower(s)[i] == LowerChar(s[i]) && Lower(s)[..i] == Lower(s[..i])
    decreases |s|
  {
    if i == 0 {
    } else {
      LowerAt(s[1..], i - 1);
      assert s[..i][1..] == s[1..][..i - 1];
      assert Lower(s)[..i] == [LowerChar(s[0])] + Lower(s[1..])[..i - 1];
    }
  }

  predicate NoCapitals(s: string) { forall i | 0 <= i < |s| :: !(65 <= s[i] as int <= 90) }

  lemma {:induction false} LowerStays(s: string)
    requires NoCapitals(s)
    ensures Lower(s) == s
  {
    if s == "" {
    } else {
      LowerStays(s[1..]);
    }
  }

  lemma {:induction false} LowerIsLower(s: string)
    ensures NoCapitals(Lower(s)) && SameLetters(s, Lower(s))
  {
    if s == "" {
    } else {
      LowerIsLower(s[1..]);
    }
  }

  /** Names are compared without the white space around them and without regard to case. */
  ghost predicate SameName(a: string, b: string) {
    exists t, u :: IsTrimOf(a, t) && IsTrimOf(b, u) && SameLetters(t, u)
  }

  lemma SameNameIff(a: string, b: string)
    ensures Lower(Trim(a)) == Lower(Trim(b)) <==> SameName(a, b)
  {
    TrimIff(a, Trim(a));
    TrimIff(b, Trim(b));
    LowerIff(Trim(a), Trim(b));
    if SameName(a, b) {
      var t, u :| IsTrimOf(a, t) && IsTrimOf(b, u) && SameLetters(t, u);
      TrimIff(a, t);
      TrimIff(b, u);
    }
  }
}
