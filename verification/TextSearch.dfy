/** Lower-casing and substring tests on text, for the ASCII keywords the classifiers use. */
module TextSearch {

  function LowerChar(c: char): char
  {
    if 'A' <= c <= 'Z' then c - 'A' + 'a' else c
  }

  function Lower(s: string): string
  {
    seq(|s|, i requires 0 <= i < |s| => LowerChar(s[i]))
  }

  predicate Contains(s: string, part: string)
  {
    |part| <= |s| && (part <= s || Contains(s[1..], part))
  }

  predicate ContainsAny(s: string, parts: seq<string>)
  {
    parts != [] && (Contains(s, parts[0]) || ContainsAny(s, parts[1..]))
  }

  /** Capital letters move by the distance between the cases, everything else stays. */
  lemma LowerExactly(s: string, i: nat)
    requires i < |s|
    ensures |Lower(s)| == |s|
    ensures Lower(s)[i] as int == s[i] as int + (if 65 <= s[i] as int <= 90 then 32 else 0)
  {}

  predicate OccursAt(s: string, part: string, i: nat)
  {
    i + |part| <= |s| && s[i..i + |part|] == part
  }

  lemma OccursLater(s: string, part: string, i: nat)
    requires s != ""
    ensures OccursAt(s, part, i + 1) <==> OccursAt(s[1..], part, i)
  {
    if i + 1 + |part| <= |s| { assert s[i + 1..i + 1 + |part|] == s[1..][i..i + |part|]; }
  }

  lemma OccursFirst(s: string, part: string)
    ensures OccursAt(s, part, 0) <==> part <= s
  {
    if |part| <= |s| { assert s[0..0 + |part|] == s[..|part|]; }
  }

  /** A text contains another one exactly when it occurs at some position. */
  lemma {:induction false} ContainsExactly(s: string, part: string)
    ensures Contains(s, part) <==> exists i: nat :: OccursAt(s, part, i)
  {
    if |part| > |s| {
      forall i: nat ensures !OccursAt(s, part, i) {}
    } else {
      OccursFirst(s, part);
      if !(part <= s) {
        ContainsExactly(s[1..], part);
        hide OccursAt;
        if i: nat :| OccursAt(s, part, i) { OccursLater(s, part, i - 1); }
        if i: nat :| OccursAt(s[1..], part, i) { OccursLater(s, part, i); }
      }
    }
  }

  lemma {:induction false} ContainsAnyExactly(s: string, parts: seq<string>)
    ensures ContainsAny(s, parts) <==> exists i :: 0 <= i < |parts| && Contains(s, parts[i])
  {
    if parts != [] {
      ContainsAnyExactly(s, parts[1..]);
      assert forall i :: 0 < i < |parts| ==> parts[i] == parts[1..][i - 1];
      assert forall i :: 0 <= i < |parts| - 1 ==> parts[1..][i] == parts[i + 1];
    }
  }

  lemma {:induction false} ContainsStart(s: string, part: string, longer: string)
    requires part <= longer && Contains(s, longer)
    ensures Contains(s, part)
  {
    if !(longer <= s) { ContainsStart(s[1..], part, longer); }
  }

  lemma {:induction false} ContainsEnd(s: string, part: string, longer: string, k: nat)
    requires k <= |longer| && part <= longer[k..] && Contains(s, longer)
    ensures Contains(s, part)
    decreases |s|
  {
    if longer <= s {
      ContainsLater(s, part, k);
    } else {
      ContainsEnd(s[1..], part, longer, k);
    }
  }

  lemma {:induction false} ContainsLater(s: string, part: string, k: nat)
    requires k <= |s| && part <= s[k..]
    ensures Contains(s, part)
    decreases k
  {
    if k > 0 {
      assert s[1..][k - 1..] == s[k..];
      ContainsLater(s[1..], part, k - 1);
    }
  }
}
