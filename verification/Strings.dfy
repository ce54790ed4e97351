/** The few functions of Go's strings package the role mapper uses, on ASCII. */
module Strings {
  import opened Options

  function Lower(c: char): char {
    if 'A' <= c <= 'Z' then c - 'A' + 'a' else c
  }

  function ToLower(s: string): (r: string)
    ensures |r| == |s| && forall i :: 0 <= i < |s| ==> r[i] == Lower(s[i])
  {
    seq(|s|, i requires 0 <= i < |s| => Lower(s[i]))
  }

  predicate IsSpace(c: char) {
    c == ' ' || '\t' <= c <= '\r'
  }

  function TrimLeft(s: string): string {
    if s != [] && IsSpace(s[0]) then TrimLeft(s[1..]) else s
  }

  function TrimRight(s: string): string {
    if s != [] && IsSpace(s[|s| - 1]) then TrimRight(s[..|s| - 1]) else s
  }

  function TrimSpace(s: string): string {
    TrimRight(TrimLeft(s))
  }

  /** No white space at either end. */
  predicate Trimmed(s: string) {
    s == [] || (!IsSpace(s[0]) && !IsSpace(s[|s| - 1]))
  }

  /** strings.SplitN(s, sep, 2), when it finds the separator. */
  function SplitAt(s: string, sep: char): Option<(string, string)> {
    if s == [] then None
    else if s[0] == sep then Some(([], s[1..]))
    else match SplitAt(s[1..], sep)
      case None => None
      case Some((before, after)) => Some(([s[0]] + before, after))
  }

  function CountChar(s: string, c: char): nat {
    if s == [] then 0 else (if s[0] == c then 1 else 0) + CountChar(s[1..], c)
  }

  /** The text before the first separator has none in it, and nothing is lost. */
  lemma {:induction false} SplitAtFirst(s: string, sep: char)
    ensures SplitAt(s, sep).None? <==> sep !in s
    ensures SplitAt(s, sep).Some? ==>
      var (before, after) := SplitAt(s, sep).value;
      s == before + [sep] + after && sep !in before
  {
    if s != [] && s[0] != sep {
      SplitAtFirst(s[1..], sep);
      assert s == [s[0]] + s[1..];
    }
  }

  lemma {:induction false} SplitJoined(before: string, sep: char, after: string)
    requires sep !in before
    ensures SplitAt(before + [sep] + after, sep) == Some((before, after))
  {
    if before == [] {
      assert before + [sep] + after == [sep] + after;
    } else {
      var s := before + [sep] + after;
      assert s[0] == before[0] && s[1..] == before[1..] + [sep] + after;
      SplitJoined(before[1..], sep, after);
      assert before == [before[0]] + before[1..];
    }
  }

  lemma {:induction false} TrimLeftTrims(s: string)
    ensures TrimLeft(s) == [] || !IsSpace(TrimLeft(s)[0])
    ensures s == [] || !IsSpace(s[0]) ==> TrimLeft(s) == s
    ensures s != [] && !IsSpace(s[|s| - 1]) ==>
      TrimLeft(s) != [] && TrimLeft(s)[|TrimLeft(s)| - 1] == s[|s| - 1]
  {
    if s != [] && IsSpace(s[0]) {
      TrimLeftTrims(s[1..]);
    }
  }

  lemma {:induction false} TrimRightTrims(s: string)
    ensures TrimRight(s) <= s
    ensures TrimRight(s) == [] || !IsSpace(TrimRight(s)[|TrimRight(s)| - 1])
    ensures s == [] || !IsSpace(s[|s| - 1]) ==> TrimRight(s) == s
  {
    if s != [] && IsSpace(s[|s| - 1]) {
      TrimRightTrims(s[..|s| - 1]);
    }
  }

  lemma TrimSpaceTrims(s: string)
    ensures Trimmed(TrimSpace(s))
    ensures TrimSpace(s) == s <==> Trimmed(s)
  {
    TrimLeftTrims(s);
    TrimRightTrims(TrimLeft(s));
  }

  lemma LowerKeepsTrimmed(s: string)
    ensures Trimmed(ToLower(s)) <==> Trimmed(s)
    ensures ToLower(ToLower(s)) == ToLower(s)
  {
    assert forall c: char :: IsSpace(Lower(c)) <==> IsSpace(c);
  }

  // ----- What these are, by character code -----

  /** Space, tab, line feed, vertical tab, form feed or carriage return. */
  predicate White(c: char) {
    c as int == 32 || 9 <= c as int <= 13
  }

  predicate AllWhite(s: string) {
    forall i :: 0 <= i < |s| ==> White(s[i])
  }

  /** `t` is `s` without the white space before and after it. */
  predicate TrimmedTo(s: string, lead: string, t: string, trail: string) {
    && s == lead + t + trail && AllWhite(lead) && AllWhite(trail)
    && (t != [] ==> !White(t[0]) && !White(t[|t| - 1]))
  }

  lemma ToLowerIs(s: string)
    ensures forall i :: 0 <= i < |s| ==>
      ToLower(s)[i] as int == if 65 <= s[i] as int <= 90 then s[i] as int + 32 else s[i] as int
  {
  }

  lemma {:induction false} TrimLeftIs(s: string) returns (lead: string)
    ensures s == lead + TrimLeft(s) && AllWhite(lead)
    ensures TrimLeft(s) != [] ==> !White(TrimLeft(s)[0])
  {
    lead := [];
    if s != [] && IsSpace(s[0]) {
      lead := TrimLeftIs(s[1..]);
      lead := [s[0]] + lead;
    }
  }

  lemma {:induction false} TrimRightIs(s: string)
    ensures TrimRight(s) <= s && forall i :: |TrimRight(s)| <= i < |s| ==> White(s[i])
    ensures TrimRight(s) != [] ==> !White(TrimRight(s)[|TrimRight(s)| - 1])
  {
    if s != [] && IsSpace(s[|s| - 1]) {
      TrimRightIs(s[..|s| - 1]);
    }
  }

  lemma TrimSpaceIs(s: string)
    ensures exists lead, trail :: TrimmedTo(s, lead, TrimSpace(s), trail)
    ensures TrimSpace(s) == [] <==> AllWhite(s)
  {
    var lead := TrimLeftIs(s);
    var rest := TrimLeft(s);
    TrimRightIs(rest);
    var t := TrimRight(rest);
    var trail := rest[|t|..];
    Joined(s, lead, t, trail, rest);
    if t != [] {
      assert t[0] == rest[0] == s[|lead|];
    }
    assert TrimmedTo(s, lead, TrimSpace(s), trail);
  }

  lemma Joined(s: string, lead: string, t: string, trail: string, rest: string)
    requires s == lead + rest && t <= rest && trail == rest[|t|..]
    ensures s == lead + t + trail
  {
  }

  /** White space around a text is all TrimSpace takes away. */
  lemma TrimSpaceOf(lead: string, t: string, trail: string)
    requires t != [] && TrimmedTo(lead + t + trail, lead, t, trail)
    ensures TrimSpace(lead + t + trail) == t
  {
    assert lead + t + trail == lead + (t + trail);
    TrimLeftOf(lead, t + trail);
    TrimRightOf(t, trail);
  }

  lemma {:induction false} TrimLeftOf(lead: string, rest: string)
    requires AllWhite(lead) && rest != [] && !White(rest[0])
    ensures TrimLeft(lead + rest) == rest
  {
    if lead == [] {
      assert lead + rest == rest;
    } else {
      assert (lead + rest)[1..] == lead[1..] + rest;
      TrimLeftOf(lead[1..], rest);
    }
  }

  lemma {:induction false} TrimRightOf(t: string, trail: string)
    requires AllWhite(trail) && t != [] && !White(t[|t| - 1])
    ensures TrimRight(t + trail) == t
    decreases |trail|
  {
    if trail == [] {
      assert t + trail == t;
    } else {
      assert (t + trail)[..|t + trail| - 1] == t + trail[..|trail| - 1];
      TrimRightOf(t, trail[..|trail| - 1]);
    }
  }

  /** Two dots are two cuts. */
  lemma {:induction false} CountCharIs(s: string, c: char)
    ensures CountChar(s, c) == 0 <==> c !in s
    ensures forall before, after :: s == before + [c] + after && c !in before ==>
      CountChar(s, c) == 1 + CountChar(after, c)
  {
    if s != [] {
      CountCharIs(s[1..], c);
      assert s == [s[0]] + s[1..];
      forall before, after | s == before + [c] + after && c !in before
        ensures CountChar(s, c) == 1 + CountChar(after, c)
      {
        if before == [] {
          assert s[1..] == after;
        } else {
          assert s[0] == before[0] && s[1..] == before[1..] + [c] + after;
          assert before == [before[0]] + before[1..];
        }
      }
    }
  }
}
