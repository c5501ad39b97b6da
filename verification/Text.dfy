/** The string operations shared by the prompt renderer and the history encoder. */
module Text {
  /** `q` is a contiguous part of `s`. */
  predicate Within(q: string, s: string) {
    exists i :: 0 <= i <= |s| && q <= s[i..]
  }

  predicate Lacks(c: char, s: string) {
    forall k :: 0 <= k < |s| ==> s[k] != c
  }

  /** `str.replace`: leftmost, non-overlapping, what is written is not read again. */
  function Replace(s: string, old_: string, new_: string): string
    requires old_ != ""
    decreases |s|
  {
    if s == "" then ""
    else if old_ <= s then new_ + Replace(s[|old_|..], old_, new_)
    else [s[0]] + Replace(s[1..], old_, new_)
  }

  lemma WithinTail(v: string, q: string)
    requires q != "" && Within(v, q[1..])
    ensures Within(v, q)
  {
    var i :| 0 <= i <= |q[1..]| && v <= q[1..][i..];
    assert q[1..][i..] == q[i + 1..];
  }

  lemma {:induction false} ReplaceAbsent(s: string, m: string, v: string)
    requires m != "" && !Within(m, s)
    ensures Replace(s, m, v) == s
    decreases |s|
  {
    if s != "" {
      assert s[0..] == s;
      if Within(m, s[1..]) { WithinTail(m, s); }
      ReplaceAbsent(s[1..], m, v);
      assert s == [s[0]] + s[1..];
    }
  }

  lemma ReplaceAbsentChar(s: string, c: char, v: string)
    requires Lacks(c, s)
    ensures Replace(s, [c], v) == s
  {
    forall i | 0 <= i <= |s| ensures !([c] <= s[i..]) {
      assert i < |s| ==> s[i..][0] == s[i];
    }
    ReplaceAbsent(s, [c], v);
  }

  predicate IsSpace(c: char) {
    c == ' ' || '\t' <= c <= '\r' || 28 as char <= c <= 31 as char
  }

  /** `str.strip`: the text between its first and its last character that is no white space. */
  function Strip(s: string): (r: string)
    ensures r != "" ==> !IsSpace(r[0]) && !IsSpace(r[|r| - 1])
    decreases |s|
  {
    if s == "" then ""
    else if IsSpace(s[0]) then Strip(s[1..])
    else if IsSpace(s[|s| - 1]) then Strip(s[..|s| - 1])
    else s
  }

  /** `i` to `j` is what is between the white space at both ends of `s`. */
  ghost predicate Core(s: string, i: nat, j: nat) {
    && i <= j <= |s| && (forall k :: 0 <= k < i || j <= k < |s| ==> IsSpace(s[k]))
    && (i < j ==> !IsSpace(s[i]) && !IsSpace(s[j - 1]))
  }

  lemma CoreLeft(s: string, i: nat, j: nat)
    requires s != "" && IsSpace(s[0]) && Core(s[1..], i, j)
    ensures Core(s, i + 1, j + 1) && s[i + 1..j + 1] == s[1..][i..j]
  {
    hide IsSpace;
    var a, b := s[i + 1..j + 1], s[1..][i..j];
    assert |a| == |b| && forall k :: 0 <= k < |a| ==> a[k] == s[i + 1 + k] == b[k];
    forall k | 0 <= k < i + 1 || j + 1 <= k < |s| ensures IsSpace(s[k]) {
      if k > 0 { assert s[k] == s[1..][k - 1]; }
    }
  }

  lemma CoreRight(s: string, i: nat, j: nat)
    requires s != "" && IsSpace(s[|s| - 1]) && Core(s[..|s| - 1], i, j)
    ensures Core(s, i, j) && s[i..j] == s[..|s| - 1][i..j]
  {
    hide IsSpace;
    var a, b := s[i..j], s[..|s| - 1][i..j];
    assert |a| == |b| && forall k :: 0 <= k < |a| ==> a[k] == s[i + k] == b[k];
    forall k | 0 <= k < i || j <= k < |s| ensures IsSpace(s[k]) {
      if k < |s| - 1 { assert s[k] == s[..|s| - 1][k]; }
    }
  }

  /** The stripped text is the part of `s` from its first character that is no white space to its last. */
  lemma {:induction false} StripIs(s: string) returns (i: nat, j: nat)
    ensures Core(s, i, j) && Strip(s) == s[i..j]
    decreases |s|
  {
    hide IsSpace;
    if s == "" {
      i, j := 0, 0;
    } else if IsSpace(s[0]) {
      i, j := StripIs(s[1..]);
      CoreLeft(s, i, j);
      i, j := i + 1, j + 1;
    } else if IsSpace(s[|s| - 1]) {
      i, j := StripIs(s[..|s| - 1]);
      CoreRight(s, i, j);
    } else {
      i, j := 0, |s|;
    }
  }
}
