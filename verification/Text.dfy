/** Strings as the Go standard library treats them: searching, trimming, splitting,
    ASCII case and byte-wise order. Only what the other modules need. */
module Text {

  datatype Option<+T> = None | Some(value: T)

  predicate Lacks(s: string, c: char) {
    c !in s
  }

  lemma LacksSides(s: string, c: char, i: nat)
    requires i <= |s| && Lacks(s, c)
    ensures Lacks(s[..i], c) && Lacks(s[i..], c)
  {
  }

  /** strings.IndexByte, with |s| in place of -1. */
  function Index(s: string, c: char): (i: nat)
    ensures i <= |s|
    ensures Lacks(s[..i], c)
    ensures i < |s| ==> s[i] == c
  {
    if s == "" || s[0] == c then 0 else 1 + Index(s[1..], c)
  }

  /** Where strings.LastIndexByte's match ends: the position just after the last c, or 0. */
  function AfterLast(s: string, c: char): (i: nat)
    ensures i <= |s|
    ensures Lacks(s[i..], c)
    ensures i > 0 ==> s[i - 1] == c
  {
    if s == "" then 0
    else if s[|s| - 1] == c then |s|
    else AfterLast(s[..|s| - 1], c)
  }

  /** Cutting at the first separator gives back the two sides. */
  lemma Cut(a: string, c: char, b: string)
    requires Lacks(a, c)
    ensures var s := a + [c] + b;
      Index(s, c) == |a| && s[..|a|] == a && s[|a| + 1..] == b
  {
    var s := a + [c] + b;
    assert s[..|a|] == a && s[|a|] == c;
  }

  lemma Uncut(a: string, c: char)
    requires Lacks(a, c)
    ensures Index(a, c) == |a| && AfterLast(a, c) == 0
  {
  }

  predicate Contains(s: string, sub: string) {
    sub <= s || (s != "" && Contains(s[1..], sub))
  }

  lemma ContainsMiddle(a: string, sub: string, b: string)
    ensures Contains(a + sub + b, sub)
  {
    if a == "" {
      assert sub <= a + sub + b;
    } else {
      ContainsMiddle(a[1..], sub, b);
      assert (a + sub + b)[1..] == a[1..] + sub + b;
    }
  }

  /** The text occurs at some place. */
  lemma {:induction false} ContainsIff(s: string, sub: string)
    ensures Contains(s, sub) <==> exists i :: 0 <= i <= |s| && sub <= s[i..]
  {
    if sub <= s {
      assert s[0..] == s;
    } else if s != "" {
      ContainsIff(s[1..], sub);
      if i :| 0 <= i <= |s[1..]| && sub <= s[1..][i..] {
        assert s[i + 1..] == s[1..][i..];
      }
      if i :| 0 <= i <= |s| && sub <= s[i..] {
        assert i > 0 && s[1..][i - 1..] == s[i..];
      }
    }
  }

  predicate IsSpace(c: char) {
    c == ' ' || '\t' <= c <= '\r'
  }

  function TrimLeft(s: string): (t: string)
    ensures t == "" || !IsSpace(t[0])
  {
    if s != "" && IsSpace(s[0]) then TrimLeft(s[1..]) else s
  }

  function TrimRight(s: string): (t: string)
    ensures t == "" || !IsSpace(t[|t| - 1])
    ensures t <= s
  {
    if s != "" && IsSpace(s[|s| - 1]) then TrimRight(s[..|s| - 1]) else s
  }

  function TrimSpace(s: string): string {
    TrimRight(TrimLeft(s))
  }

  predicate Blank(s: string) {
    forall c :: c in s ==> IsSpace(c)
  }

  lemma {:induction false} TrimBefore(before: string, s: string)
    requires Blank(before) && (s == "" || !IsSpace(s[0]))
    ensures TrimLeft(before + s) == s
  {
    hide IsSpace;
    if before == "" {
      assert before + s == s;
    } else {
      assert before[0] in before && (before + s)[1..] == before[1..] + s;
      TrimBefore(before[1..], s);
    }
  }

  lemma {:induction false} TrimAfter(s: string, after: string)
    requires Blank(after) && (s == "" || !IsSpace(s[|s| - 1]))
    ensures TrimRight(s + after) == s
  {
    hide IsSpace;
    if after == "" {
      assert s + after == s;
    } else {
      var last := |after| - 1;
      assert after[last] in after && (s + after)[..|s| + last] == s + after[..last];
      TrimAfter(s, after[..last]);
    }
  }

  /** Trimming takes away the blanks around a text and nothing else. */
  lemma TrimAround(before: string, s: string, after: string)
    requires Blank(before) && Blank(after)
    requires s == "" || (!IsSpace(s[0]) && !IsSpace(s[|s| - 1]))
    ensures TrimSpace(before + s + after) == s
  {
    hide IsSpace, TrimLeft, TrimRight;
    if s == "" {
      assert before + s + after == (before + after) + "";
      TrimBefore(before + after, "");
      TrimAfter("", "");
    } else {
      assert before + s + after == before + (s + after);
      TrimBefore(before, s + after);
      TrimAfter(s, after);
    }
  }

  lemma {:induction false} TrimmedTail(s: string) returns (after: string)
    ensures Blank(after) && s == TrimRight(s) + after
  {
    hide IsSpace;
    after := s[|TrimRight(s)|..];
    if s != "" && IsSpace(s[|s| - 1]) {
      var tail := TrimmedTail(s[..|s| - 1]);
      after := tail + [s[|s| - 1]];
    }
  }

  /** strings.TrimRight(s, "/"). */
  function TrimSlashes(s: string): (t: string)
    ensures t <= s
  {
    if s != "" && s[|s| - 1] == '/' then TrimSlashes(s[..|s| - 1]) else s
  }

  lemma {:induction false} TrimSlashesAround(s: string, slashes: string)
    requires s == "" || s[|s| - 1] != '/'
    requires forall i :: 0 <= i < |slashes| ==> slashes[i] == '/'
    ensures TrimSlashes(s + slashes) == s
  {
    if slashes == "" {
      assert s + slashes == s;
    } else {
      var last := |slashes| - 1;
      assert (s + slashes)[..|s| + last] == s + slashes[..last];
      TrimSlashesAround(s, slashes[..last]);
    }
  }

  function LowerChar(c: char): char {
    if 'A' <= c <= 'Z' then c - 'A' + 'a' else c
  }

  function Lower(s: string): (t: string)
    ensures |t| == |s|
    ensures forall i :: 0 <= i < |s| ==> t[i] == LowerChar(s[i])
  {
    seq(|s|, i requires 0 <= i < |s| => LowerChar(s[i]))
  }

  lemma LowerLetters()
    ensures Lower("AZ[@az{09-.") == "az[@az{09-."
  {
  }

  /** The strict order of Go strings. */
  predicate Less(a: string, b: string) {
    b != "" && (a == "" || a[0] < b[0] || (a[0] == b[0] && Less(a[1..], b[1..])))
  }

  /** Up to k the two agree; there a ends, or has the smaller character. */
  predicate DecidedAt(a: string, b: string, k: nat) {
    k <= |a| && k < |b| && (forall i :: 0 <= i < k ==> a[i] == b[i]) && (k == |a| || a[k] < b[k])
  }

  lemma {:induction false} LessIff(a: string, b: string)
    ensures Less(a, b) <==> exists k: nat :: DecidedAt(a, b, k)
  {
    if a != "" && b != "" && a[0] == b[0] {
      LessIff(a[1..], b[1..]);
      if Less(a, b) {
        var k: nat :| DecidedAt(a[1..], b[1..], k);
        DecidedLater(a, b, k);
      }
      if k: nat :| DecidedAt(a, b, k) {
        DecidedLater(a, b, k - 1);
      }
    } else if Less(a, b) {
      assert DecidedAt(a, b, 0);
    }
  }

  lemma DecidedLater(a: string, b: string, k: nat)
    requires a != "" && b != "" && a[0] == b[0]
    ensures DecidedAt(a, b, k + 1) <==> DecidedAt(a[1..], b[1..], k)
  {
    assert forall i :: 0 <= i < |a| - 1 ==> a[1..][i] == a[i + 1];
    assert forall i :: 0 <= i < |b| - 1 ==> b[1..][i] == b[i + 1];
    if DecidedAt(a[1..], b[1..], k) {
      forall i | 0 <= i < k + 1 ensures a[i] == b[i] {
        if i > 0 { assert a[1..][i - 1] == b[1..][i - 1]; }
      }
    }
  }

  predicate AtMost(a: string, b: string) {
    a == b || Less(a, b)
  }

  lemma LessTransitive(a: string, b: string, c: string)
    requires Less(a, b) && Less(b, c)
    ensures Less(a, c)
  {
  }

  lemma LessTotal(a: string, b: string)
    ensures Less(a, b) || a == b || Less(b, a)
    ensures !(Less(a, b) && Less(b, a)) && !Less(a, a)
  {
    if a != "" && b != "" && a[0] == b[0] {
      LessTotal(a[1..], b[1..]);
      assert a == [a[0]] + a[1..] && b == [b[0]] + b[1..];
    }
  }

  /** strings.Join. */
  function Join(parts: seq<string>, sep: char): string {
    if |parts| == 0 then ""
    else if |parts| == 1 then parts[0]
    else parts[0] + [sep] + Join(parts[1..], sep)
  }

  /** strings.Split; an empty string has one, empty, part. */
  function Split(s: string, sep: char): (parts: seq<string>)
    ensures |parts| > 0
    decreases |s|
  {
    var i := Index(s, sep);
    if i == |s| then [s] else [s[..i]] + Split(s[i + 1..], sep)
  }

  /** Splitting undoes joining exactly when no part holds the separator. */
  lemma {:induction false} SplitJoin(parts: seq<string>, sep: char)
    requires |parts| > 0
    ensures Split(Join(parts, sep), sep) == parts <==> forall p :: p in parts ==> Lacks(p, sep)
    decreases |parts|
  {
    var joined := Join(parts, sep);
    if !Lacks(parts[0], sep) {
      EarlySeparator(parts, sep);
      assert parts[0] in parts;
    } else if |parts| == 1 {
      Uncut(joined, sep);
    } else {
      var rest := parts[1..];
      SplitJoin(rest, sep);
      assert joined == parts[0] + [sep] + Join(rest, sep);
      Cut(parts[0], sep, Join(rest, sep));
      hide Lacks;
      assert Split(joined, sep) == [parts[0]] + Split(Join(rest, sep), sep);
      assert parts == [parts[0]] + rest;
      assert forall p :: p in parts <==> p == parts[0] || p in rest;
      assert Split(joined, sep)[1..] == Split(Join(rest, sep), sep);
    }
  }

  lemma EarlySeparator(parts: seq<string>, sep: char)
    requires |parts| > 0 && !Lacks(parts[0], sep)
    ensures Split(Join(parts, sep), sep)[0] != parts[0]
  {
    var joined := Join(parts, sep);
    assert joined[..|parts[0]|] == parts[0];
    assert sep in joined[..|parts[0]|];
    assert Index(joined, sep) < |parts[0]|;
  }
}
