/** Filling in the placeholders of a prompt template.

    The program runs one `str.replace` pass per placeholder over the same string, so a later pass
    sees the text the earlier passes wrote.  The reference here is one left-to-right substitution
    that never looks at what it has written. */
module Prompts {
  import opened Options
  import opened Text

  datatype Placeholder = Placeholder(marker: string, value: string)

  predicate Bracketless(v: string) {
    Lacks('[', v) && Lacks(']', v)
  }

  /** The shape of every placeholder name: brackets at both ends and nowhere else. */
  predicate IsMarker(m: string) {
    && |m| >= 2 && m[0] == '[' && m[|m| - 1] == ']'
    && forall k :: 0 < k < |m| - 1 ==> m[k] != '[' && m[k] != ']'
  }

  predicate WellFormed(ps: seq<Placeholder>) {
    && (forall p :: p in ps ==> IsMarker(p.marker))
    && (forall i, j :: 0 <= i < j < |ps| ==> ps[i].marker != ps[j].marker)
  }

  predicate BracketlessValues(ps: seq<Placeholder>) {
    forall p :: p in ps ==> Bracketless(p.value)
  }

  /** The passes in order, each over the result of the one before. */
  function Successive(ps: seq<Placeholder>, s: string): string
    requires WellFormed(ps)
  {
    if ps == [] then s else Successive(ps[1..], Replace(s, ps[0].marker, ps[0].value))
  }

  function MatchAtStart(ps: seq<Placeholder>, s: string): (r: Option<Placeholder>)
    ensures r.Some? ==> r.value in ps && r.value.marker <= s
    ensures r.None? ==> forall p :: p in ps ==> !(p.marker <= s)
  {
    if ps == [] then None
    else if ps[0].marker <= s then Some(ps[0])
    else MatchAtStart(ps[1..], s)
  }

  /** All placeholders at once, in a single scan of the template. */
  function Substitute(ps: seq<Placeholder>, s: string): string
    requires WellFormed(ps)
    decreases |s|
  {
    if s == "" then ""
    else
      match MatchAtStart(ps, s)
      case Some(p) => p.value + Substitute(ps, s[|p.marker|..])
      case None => [s[0]] + Substitute(ps, s[1..])
  }

  // ---------------------------------------------------------------- one marker at a position

  /** Two placeholder names cannot both begin the same text. */
  lemma MarkersDoNotNest(m: string, n: string, s: string)
    requires IsMarker(m) && IsMarker(n) && m <= s && n <= s
    ensures m == n
  {
    assert m[|m| - 1] == s[|m| - 1] && n[|n| - 1] == s[|n| - 1];
    assert |m| == |n|;
  }

  lemma MatchIs(ps: seq<Placeholder>, p: Placeholder, s: string)
    requires WellFormed(ps) && p in ps && p.marker <= s
    ensures MatchAtStart(ps, s) == Some(p)
  {
    var q := MatchAtStart(ps, s);
    assert q.Some?;
    MarkersDoNotNest(p.marker, q.value.marker, s);
    var i :| 0 <= i < |ps| && ps[i] == p;
    var j :| 0 <= j < |ps| && ps[j] == q.value;
    assert i == j;
  }

  // ---------------------------------------------------------------- text without '[' is inert

  lemma HeadAndTail(a: string, t: string)
    requires a != ""
    ensures a + t == [a[0]] + (a[1..] + t)
  {}

  lemma NoMatchHere(ps: seq<Placeholder>, s: string)
    requires WellFormed(ps) && s != "" && s[0] != '['
    ensures MatchAtStart(ps, s).None?
  {}

  lemma {:induction false} SubstitutePassesOver(ps: seq<Placeholder>, u: string, s: string)
    requires WellFormed(ps) && Lacks('[', u)
    ensures Substitute(ps, u + s) == u + Substitute(ps, s)
  {
    if u == "" {
      assert u + s == s;
    } else {
      assert (u + s)[0] == u[0] && (u + s)[1..] == u[1..] + s;
      NoMatchHere(ps, u + s);
      SubstitutePassesOver(ps, u[1..], s);
      HeadAndTail(u, Substitute(ps, s));
    }
  }

  lemma {:induction false} ReplacePassesOver(u: string, s: string, m: string, v: string)
    requires IsMarker(m) && Lacks('[', u)
    ensures Replace(u + s, m, v) == u + Replace(s, m, v)
  {
    if u == "" {
      assert u + s == s;
    } else {
      assert (u + s)[0] == u[0];
      assert (u + s)[1..] == u[1..] + s;
      ReplacePassesOver(u[1..], s, m, v);
      assert u == [u[0]] + u[1..];
    }
  }

  // ---------------------------------------------------------------- what a pass can create

  lemma ValueIsNoStart(q: string, v: string, w: string)
    requires q != "" && q[|q| - 1] == ']' && Bracketless(v) && !Within(v, q)
    ensures !(q <= v + w)
  {
    if |q| <= |v| {
      assert (v + w)[|q| - 1] == v[|q| - 1];
    } else {
      assert q[0..] == q;
      assert (v + w)[..|v|] == v;
    }
  }

  /** The overlap argument.  `q` is the rest of a placeholder after its '['.  If `q` stands at the
      start of a text after a pass, it stood there before, unless the value written by the pass lies
      inside `q`. */
  lemma {:induction false} PassCreatesOnlyAround(q: string, s: string, m: string, v: string)
    requires IsMarker(m) && Bracketless(v) && !Within(v, q)
    requires q != "" ==> q[|q| - 1] == ']'
    requires q <= Replace(s, m, v)
    ensures q <= s
    decreases |s|
  {
    if q == "" || s == "" {
    } else if m <= s {
      ValueIsNoStart(q, v, Replace(s[|m|..], m, v));
    } else {
      assert q[0] == s[0];
      assert q[1..] <= Replace(s[1..], m, v) by {
        assert Replace(s, m, v)[1..] == Replace(s[1..], m, v);
      }
      if Within(v, q[1..]) { WithinTail(v, q); }
      PassCreatesOnlyAround(q[1..], s[1..], m, v);
    }
  }

  /** A pass does not touch another placeholder standing at the start. */
  lemma PassKeepsMarker(n: string, s: string, m: string, v: string)
    requires IsMarker(m) && IsMarker(n) && n <= s && !(m <= s)
    ensures Replace(s, m, v) == n + Replace(s[|n|..], m, v)
    ensures Replace(s, m, v)[|n|..] == Replace(s[|n|..], m, v)
  {
    var body, tail := n[1..], s[|n|..];
    assert n == ['['] + body && s == n + tail;
    assert s[1..] == body + tail;
    ReplacePassesOver(body, tail, m, v);
    HeadAndTail(n, Replace(tail, m, v));
  }

  /** Running one pass first and substituting the others afterwards is substituting all of them,
      as soon as the value of the first pass lies inside none of the other placeholder names. */
  lemma {:induction false} PassThenSubstitute(ps: seq<Placeholder>, s: string)
    requires WellFormed(ps) && ps != [] && Bracketless(ps[0].value)
    requires forall p :: p in ps[1..] ==> !Within(ps[0].value, p.marker)
    ensures Substitute(ps[1..], Replace(s, ps[0].marker, ps[0].value)) == Substitute(ps, s)
    decreases |s|
  {
    var first, rest := ps[0], ps[1..];
    var m, v := first.marker, first.value;
    if s == "" {
    } else if m <= s {
      MatchIs(ps, first, s);
      SubstitutePassesOver(rest, v, Replace(s[|m|..], m, v));
      PassThenSubstitute(ps, s[|m|..]);
    } else {
      var r := Replace(s, m, v);
      assert r == [s[0]] + Replace(s[1..], m, v);
      match MatchAtStart(rest, s) {
        case Some(p) =>
          var tail := s[|p.marker|..];
          PassKeepsMarker(p.marker, s, m, v);
          MatchIs(rest, p, r);
          MatchIs(ps, p, s);
          PassThenSubstitute(ps, tail);
        case None =>
          assert MatchAtStart(ps, s).None?;
          assert MatchAtStart(rest, r).None? by {
            forall p | p in rest ensures !(p.marker <= r) {
              if p.marker <= r {
                NothingNewAtStart(p.marker, s, m, v);
              }
            }
          }
          assert r[1..] == Replace(s[1..], m, v);
          PassThenSubstitute(ps, s[1..]);
      }
    }
  }

  lemma NothingNewAtStart(n: string, s: string, m: string, v: string)
    requires IsMarker(m) && IsMarker(n) && Bracketless(v) && !Within(v, n)
    requires s != "" && !(m <= s) && n <= Replace(s, m, v)
    ensures n <= s
  {
    assert n[1..] <= Replace(s[1..], m, v) by {
      assert Replace(s, m, v)[1..] == Replace(s[1..], m, v);
    }
    if Within(v, n[1..]) { WithinTail(v, n); }
    PassCreatesOnlyAround(n[1..], s[1..], m, v);
  }

  // ---------------------------------------------------------------- the substitution theorem

  /** No value lies inside the name of a placeholder that is replaced later. */
  ghost predicate SafeOrder(ps: seq<Placeholder>) {
    forall i, j :: 0 <= i < j < |ps| ==> !Within(ps[i].value, ps[j].marker)
  }

  lemma {:induction false} SuccessiveIsSubstitute(ps: seq<Placeholder>, s: string)
    requires WellFormed(ps) && BracketlessValues(ps) && SafeOrder(ps)
    ensures Successive(ps, s) == Substitute(ps, s)
    decreases |ps|
  {
    if ps == [] {
      SubstituteNothing(s);
    } else {
      var rest := ps[1..];
      assert SafeOrder(rest) by {
        forall i, j | 0 <= i < j < |rest| ensures !Within(rest[i].value, rest[j].marker) {
          assert rest[i] == ps[i + 1] && rest[j] == ps[j + 1];
        }
      }
      SuccessiveIsSubstitute(rest, Replace(s, ps[0].marker, ps[0].value));
      forall p | p in rest ensures !Within(ps[0].value, p.marker) {
        var j :| 0 <= j < |rest| && rest[j] == p;
        assert ps[j + 1] == p;
      }
      PassThenSubstitute(ps, s);
    }
  }

  lemma {:induction false} SubstituteNothing(s: string)
    ensures Substitute([], s) == s
  {
    if s != "" {
      SubstituteNothing(s[1..]);
      assert s == [s[0]] + s[1..];
    }
  }

  // ---------------------------------------------------------------- and its converse

  lemma {:induction false} SuccessiveAbsent(ps: seq<Placeholder>, s: string)
    requires WellFormed(ps) && forall p :: p in ps ==> !Within(p.marker, s)
    ensures Successive(ps, s) == s
    decreases |ps|
  {
    if ps != [] {
      ReplaceAbsent(s, ps[0].marker, ps[0].value);
      SuccessiveAbsent(ps[1..], s);
    }
  }

  lemma NoMarkerBefore(a: string, s: string, n: string, i: nat)
    requires IsMarker(n) && Lacks(']', a) && a < s && s[|a|] == '[' && i < |a|
    ensures !(n <= s[i..])
  {
    var t := s[i..];
    if |n| <= |t| {
      if i + |n| - 1 < |a| {
        assert t[|n| - 1] == a[i + |n| - 1];
      } else {
        assert t[|a| - i] == '[';
        assert n[|a| - i] != '[';
      }
    }
  }

  /** The only '[' of `a + (m + b)` that can begin a placeholder is the one of `m`. */
  lemma OnlyTheInnerMarker(a: string, m: string, b: string, n: string)
    requires IsMarker(m) && IsMarker(n) && n != m && Lacks(']', a) && Lacks('[', b)
    ensures !Within(n, a + (m + b))
  {
    var s := a + (m + b);
    assert s[|a|] == '[' && a <= s;
    forall i | 0 <= i <= |s| ensures !(n <= s[i..]) {
      if i < |a| {
        NoMarkerBefore(a, s, n, i);
      } else if i == |a| {
        assert s[i..] == m + b;
        if n <= m + b { MarkersDoNotNest(m, n, m + b); }
      } else if i < |a| + |m| {
        assert s[i] == m[i - |a|];
      } else if i < |s| {
        assert s[i] == b[i - |a| - |m|];
      }
    }
  }

  /** A marker replaced inside text that has no other '[': only that marker changes. */
  lemma {:induction false} ReplaceOnce(a: string, m: string, b: string, v: string)
    requires IsMarker(m) && Lacks(']', a) && Lacks('[', b)
    ensures Replace(a + (m + b), m, v) == a + (v + b)
    decreases |a|
  {
    var t := m + b;
    if a == "" {
      assert a + t == t && t[|m|..] == b && b + "" == b;
      ReplacePassesOver(b, "", m, v);
      assert Replace(b, m, v) == b;
    } else {
      var s := a + t;
      assert !(m <= s) by {
        assert s[|a|] == '[' && s[0..] == s && a < s;
        NoMarkerBefore(a, s, m, 0);
      }
      assert s[1..] == a[1..] + t;
      ReplaceOnce(a[1..], m, b, v);
      HeadAndTail(a, v + b);
    }
  }

  /** On the bare name of one placeholder the passes write exactly that placeholder's value. */
  lemma {:induction false} PassOnName(ps: seq<Placeholder>, j: nat)
    requires WellFormed(ps) && j < |ps| && Bracketless(ps[j].value)
    ensures Successive(ps, ps[j].marker) == ps[j].value
    decreases j
  {
    var q := ps[j];
    var n := q.marker;
    assert "" + (n + "") == n && "" + (q.value + "") == q.value;
    if j == 0 {
      ReplaceOnce("", n, "", q.value);
      forall r | r in ps[1..] ensures !Within(r.marker, q.value) {
        forall x | 0 <= x <= |q.value| ensures !(r.marker <= q.value[x..]) {
          assert x < |q.value| ==> q.value[x..][0] == q.value[x];
        }
      }
      SuccessiveAbsent(ps[1..], q.value);
    } else {
      OnlyTheInnerMarker("", n, "", ps[0].marker);
      ReplaceAbsent(n, ps[0].marker, ps[0].value);
      assert ps[1..][j - 1] == q;
      PassOnName(ps[1..], j - 1);
    }
  }

  lemma OtherNames(ps: seq<Placeholder>, i: nat)
    requires WellFormed(ps) && i < |ps|
    ensures WellFormed(ps[1..]) && IsMarker(ps[0].marker) && IsMarker(ps[i].marker)
    ensures i > 0 ==> ps[0].marker != ps[i].marker
  {}

  /** With the name of placeholder `i` standing in the gap of the name of placeholder `j`, pass `i`
      completes the name and pass `j` then replaces it. */
  lemma {:induction false} PassesOnTrap(ps: seq<Placeholder>, i: nat, j: nat, a: string, b: string)
    requires WellFormed(ps) && i < j < |ps| && Bracketless(ps[j].value)
    requires Lacks(']', a) && Lacks('[', b) && a + (ps[i].value + b) == ps[j].marker
    ensures Successive(ps, a + (ps[i].marker + b)) == ps[j].value
    decreases i
  {
    var m := ps[i].marker;
    OtherNames(ps, i);
    hide WellFormed, IsMarker, Lacks, Within, Bracketless;
    if i == 0 {
      ReplaceOnce(a, m, b, ps[0].value);
      assert ps[1..][j - 1] == ps[j];
      PassOnName(ps[1..], j - 1);
    } else {
      OnlyTheInnerMarker(a, m, b, ps[0].marker);
      ReplaceAbsent(a + (m + b), ps[0].marker, ps[0].value);
      assert ps[1..][i - 1] == ps[i] && ps[1..][j - 1] == ps[j];
      PassesOnTrap(ps[1..], i - 1, j - 1, a, b);
    }
  }

  /** Cut the name of a later placeholder around the value of an earlier one and put the earlier
      name in the gap: on that template the passes replace text that the template never held. */
  lemma Trap(ps: seq<Placeholder>, i: nat, j: nat) returns (t: string)
    requires WellFormed(ps) && BracketlessValues(ps)
    requires i < j < |ps| && Within(ps[i].value, ps[j].marker)
    ensures Substitute(ps, t) == ps[j].marker
    ensures Successive(ps, t) == ps[j].value
    ensures ps[j].marker != ps[j].value
  {
    var p, q := ps[i], ps[j];
    var n, v := q.marker, p.value;
    assert p in ps && q in ps;
    var k := Gap(v, n);
    var a, b := n[..k], n[k + |v|..];
    AroundGap(v, n, k);
    assert n[|n| - 1] == ']' && Bracketless(q.value);
    t := a + (p.marker + b);
    hide WellFormed, BracketlessValues, Within, IsMarker, Lacks;
    SubstituteOnce(ps, p, a, b);
    PassesOnTrap(ps, i, j, a, b);
  }

  /** A bracketless value lies inside a marker only strictly between its brackets. */
  lemma Gap(v: string, n: string) returns (k: nat)
    requires IsMarker(n) && Bracketless(v) && Within(v, n)
    ensures 0 < k && k + |v| < |n| && n[k..k + |v|] == v
  {
    if v == "" {
      k := 1;
    } else {
      k :| 0 <= k <= |n| && v <= n[k..];
      assert v == n[k..][..|v|] == n[k..k + |v|];
      assert v[0] == n[k] && v[|v| - 1] == n[k + |v| - 1];
    }
  }

  lemma AroundGap(v: string, n: string, k: nat)
    requires IsMarker(n) && 0 < k && k + |v| < |n| && n[k..k + |v|] == v
    ensures var a, b := n[..k], n[k + |v|..];
            && n == a + (v + b) && a != "" && a[0] == '[' && Lacks('[', a[1..]) && Lacks(']', a) && Lacks('[', b)
  {}

  lemma SubstituteOnce(ps: seq<Placeholder>, p: Placeholder, a: string, b: string)
    requires WellFormed(ps) && p in ps && Lacks('[', b) && Lacks(']', a)
    requires a != "" && a[0] == '[' && Lacks('[', a[1..])
    ensures Substitute(ps, a + (p.marker + b)) == a + (p.value + b)
  {
    var t := p.marker + b;
    NoMatchBefore(ps, a, t);
    hide MatchAtStart, WellFormed, Lacks, Substitute, IsMarker;
    SubstituteMarker(ps, p, b);
    SubstitutePassesOver(ps, a[1..], t);
    SubstituteStep(ps, a, t);
    HeadAndTail(a, p.value + b);
  }

  lemma SubstituteStep(ps: seq<Placeholder>, a: string, t: string)
    requires WellFormed(ps) && a != "" && MatchAtStart(ps, a + t).None?
    ensures Substitute(ps, a + t) == [a[0]] + Substitute(ps, a[1..] + t)
  {
    hide MatchAtStart, WellFormed;
    assert (a + t)[0] == a[0] && (a + t)[1..] == a[1..] + t;
  }

  lemma NoMatchBefore(ps: seq<Placeholder>, a: string, t: string)
    requires WellFormed(ps) && Lacks(']', a) && a != "" && t != "" && t[0] == '['
    ensures MatchAtStart(ps, a + t).None?
  {
    var s := a + t;
    assert s[|a|] == '[' && s[0..] == s && a < s;
    forall r | r in ps ensures !(r.marker <= s) {
      NoMarkerBefore(a, s, r.marker, 0);
    }
  }

  lemma SubstituteMarker(ps: seq<Placeholder>, p: Placeholder, b: string)
    requires WellFormed(ps) && p in ps && Lacks('[', b)
    ensures Substitute(ps, p.marker + b) == p.value + b
  {
    var t := p.marker + b;
    MatchIs(ps, p, t);
    assert t[|p.marker|..] == b;
    SubstitutePassesOver(ps, b, "");
    assert b + "" == b;
  }

  /** Exactly when the passes are a simultaneous substitution: for every template if and only if no
      value lies inside the name of a placeholder replaced after it. */
  lemma SuccessiveIsSubstituteIff(ps: seq<Placeholder>)
    requires WellFormed(ps) && BracketlessValues(ps)
    ensures (forall s :: Successive(ps, s) == Substitute(ps, s)) <==> SafeOrder(ps)
  {
    if SafeOrder(ps) {
      forall s ensures Successive(ps, s) == Substitute(ps, s) {
        SuccessiveIsSubstitute(ps, s);
      }
    } else {
      var i, j :| 0 <= i < j < |ps| && Within(ps[i].value, ps[j].marker);
      var t := Trap(ps, i, j);
      assert Successive(ps, t) != Substitute(ps, t);
    }
  }

  // ---------------------------------------------------------------- any order

  /** The values stay clear of every name, so no order of the passes is unsafe. */
  ghost predicate Independent(ps: seq<Placeholder>) {
    forall p, q :: p in ps && q in ps ==> !Within(p.value, q.marker)
  }

  lemma {:induction false} SubstituteAnyOrder(ps: seq<Placeholder>, qs: seq<Placeholder>, s: string)
    requires WellFormed(ps) && WellFormed(qs)
    requires forall p :: p in ps <==> p in qs
    ensures Substitute(ps, s) == Substitute(qs, s)
    decreases |s|
  {
    if s != "" {
      match MatchAtStart(ps, s) {
        case Some(p) =>
          MatchIs(qs, p, s);
          SubstituteAnyOrder(ps, qs, s[|p.marker|..]);
        case None =>
          assert MatchAtStart(qs, s).None?;
          SubstituteAnyOrder(ps, qs, s[1..]);
      }
    }
  }

  lemma SuccessiveAnyOrder(ps: seq<Placeholder>, qs: seq<Placeholder>, s: string)
    requires WellFormed(ps) && WellFormed(qs) && BracketlessValues(ps) && Independent(ps)
    requires forall p :: p in ps <==> p in qs
    ensures Successive(qs, s) == Substitute(ps, s) == Successive(ps, s)
  {
    SuccessiveIsSubstitute(ps, s);
    SuccessiveIsSubstitute(qs, s);
    SubstituteAnyOrder(ps, qs, s);
  }

  // ---------------------------------------------------------------- the final marker check

  const INJECT := "[INJECT_"

  predicate AllInject(ps: seq<Placeholder>) {
    forall p :: p in ps ==> INJECT <= p.marker
  }

  /** Every "[INJECT_" of the template is the beginning of a known placeholder. */
  predicate AllKnown(ps: seq<Placeholder>, t: string) {
    forall i :: 0 <= i <= |t| && INJECT <= t[i..] ==> MatchAtStart(ps, t[i..]).Some?
  }

  /** `v` can make up an "[INJECT_" with what stands around it: it begins with what is missing after
      some broken "[INJECT_", or it fills a gap inside one. */
  ghost predicate Completes(v: string) {
    Within(v, INJECT) || exists k :: 1 <= k < |INJECT| && INJECT[k..] <= v
  }

  lemma WithinShift(q: string, c: char, s: string)
    ensures Within(q, [c] + s) <==> q <= [c] + s || Within(q, s)
  {
    var t := [c] + s;
    assert t[0..] == t && t[1..] == s;
    forall i | 1 <= i <= |t| ensures t[i..] == s[i - 1..] {}
    if Within(q, t) {
      var i :| 0 <= i <= |t| && q <= t[i..];
      if i > 0 { assert q <= s[i - 1..]; }
    }
    if Within(q, s) {
      var i :| 0 <= i <= |s| && q <= s[i..];
      assert q <= t[i + 1..];
    }
  }

  lemma {:induction false} WithinPassesOver(u: string, s: string)
    requires Lacks('[', u)
    ensures Within(INJECT, u + s) <==> Within(INJECT, s)
  {
    if u == "" {
      assert u + s == s;
    } else {
      HeadAndTail(u, s);
      WithinShift(INJECT, u[0], u[1..] + s);
      assert (u + s)[0] == u[0] && INJECT[0] == '[';
      WithinPassesOver(u[1..], s);
    }
  }

  lemma KnownShift(ps: seq<Placeholder>, c: char, s: string)
    ensures AllKnown(ps, [c] + s) <==>
            AllKnown(ps, s) && (INJECT <= [c] + s ==> MatchAtStart(ps, [c] + s).Some?)
  {
    var t := [c] + s;
    assert t[0..] == t;
    assert forall i :: 0 <= i <= |s| ==> t[i + 1..] == s[i..];
    if AllKnown(ps, t) {
      forall i | 0 <= i <= |s| && INJECT <= s[i..] ensures MatchAtStart(ps, s[i..]).Some? {
        assert INJECT <= t[i + 1..];
      }
    }
    if AllKnown(ps, s) && (INJECT <= t ==> MatchAtStart(ps, t).Some?) {
      forall i | 0 <= i <= |t| && INJECT <= t[i..] ensures MatchAtStart(ps, t[i..]).Some? {
        if i > 0 { assert t[i..] == s[i - 1..]; }
      }
    }
  }

  lemma {:induction false} KnownPassesOver(ps: seq<Placeholder>, u: string, s: string)
    requires Lacks('[', u)
    ensures AllKnown(ps, u + s) <==> AllKnown(ps, s)
  {
    if u == "" {
      assert u + s == s;
    } else {
      HeadAndTail(u, s);
      KnownShift(ps, u[0], u[1..] + s);
      assert (u + s)[0] == u[0] && INJECT[0] == '[';
      KnownPassesOver(ps, u[1..], s);
    }
  }

  /** The rest of a marker, standing at the start of substituted text, was in the template. */
  lemma {:induction false} MarkerRestIsOld(ps: seq<Placeholder>, k: nat, t: string)
    requires WellFormed(ps) && 1 <= k <= |INJECT|
    requires forall p :: p in ps ==> !Completes(p.value)
    requires INJECT[k..] <= Substitute(ps, t)
    ensures INJECT[k..] <= t
    decreases |t|
  {
    if k < |INJECT| && t != "" {
      match MatchAtStart(ps, t) {
        case Some(p) =>
          ValueIsNoRest(p.value, k, Substitute(ps, t[|p.marker|..]));
        case None =>
          assert INJECT[k + 1..] == INJECT[k..][1..];
          assert Substitute(ps, t)[1..] == Substitute(ps, t[1..]);
          MarkerRestIsOld(ps, k + 1, t[1..]);
      }
    }
  }

  lemma ValueIsNoRest(v: string, k: nat, w: string)
    requires 1 <= k < |INJECT| && !Completes(v)
    ensures !(INJECT[k..] <= v + w)
  {
    var rest := INJECT[k..];
    if |rest| <= |v| {
      assert (v + w)[..|rest|] == v[..|rest|];
    } else {
      assert !(v <= rest);
      assert (v + w)[..|v|] == v;
    }
  }

  lemma KnownPastBody(ps: seq<Placeholder>, body: string, tail: string)
    requires Lacks('[', body) && MatchAtStart(ps, ['['] + (body + tail)).Some?
    ensures AllKnown(ps, ['['] + (body + tail)) <==> AllKnown(ps, tail)
  {
    hide AllKnown, Lacks, MatchAtStart;
    KnownShift(ps, '[', body + tail);
    KnownPassesOver(ps, body, tail);
  }

  lemma KnownPastMarker(ps: seq<Placeholder>, p: Placeholder, t: string)
    requires WellFormed(ps) && t != "" && MatchAtStart(ps, t) == Some(p)
    ensures AllKnown(ps, t) <==> AllKnown(ps, t[|p.marker|..])
  {
    var m := p.marker;
    var body, tail := m[1..], t[|m|..];
    hide AllKnown, MatchAtStart;
    assert m == ['['] + body && t == m + tail;
    HeadAndTail(m, tail);
    KnownPastBody(ps, body, tail);
  }

  /** The check after the substitution sees exactly the unknown markers of the template. */
  lemma {:induction false} CheckSeesUnknown(ps: seq<Placeholder>, t: string)
    requires WellFormed(ps) && AllInject(ps) && BracketlessValues(ps)
    requires forall p :: p in ps ==> !Completes(p.value)
    ensures Within(INJECT, Substitute(ps, t)) <==> !AllKnown(ps, t)
    decreases |t|
  {
    if t == "" {
      assert !Within(INJECT, "");
    } else {
      match MatchAtStart(ps, t) {
        case Some(p) =>
          var tail := t[|p.marker|..];
          KnownPastMarker(ps, p, t);
          WithinPassesOver(p.value, Substitute(ps, tail));
          CheckSeesUnknown(ps, tail);
        case None =>
          MarkerAtStart(ps, t);
          hide Within, AllKnown;
          var s := t[1..];
          assert t == [t[0]] + s;
          KnownShift(ps, t[0], s);
          WithinShift(INJECT, t[0], Substitute(ps, s));
          CheckSeesUnknown(ps, s);
      }
    }
  }

  lemma MarkerAtStart(ps: seq<Placeholder>, t: string)
    requires WellFormed(ps) && t != ""
    requires forall p :: p in ps ==> !Completes(p.value)
    requires MatchAtStart(ps, t).None?
    ensures INJECT <= Substitute(ps, t) <==> INJECT <= t
  {
    var s := t[1..];
    assert INJECT == [INJECT[0]] + INJECT[1..];
    assert Substitute(ps, t) == [t[0]] + Substitute(ps, s);
    if INJECT <= Substitute(ps, t) {
      assert INJECT[1..] <= Substitute(ps, t)[1..];
      MarkerRestIsOld(ps, 1, s);
    }
    if INJECT <= t {
      assert INJECT[1..] <= s;
      MarkerRestStays(ps, s);
    }
  }

  lemma MarkerRestStays(ps: seq<Placeholder>, s: string)
    requires WellFormed(ps) && INJECT[1..] <= s
    ensures INJECT[1..] <= Substitute(ps, s)
  {
    var tail := s[|INJECT| - 1..];
    assert s == INJECT[1..] + tail;
    SubstitutePassesOver(ps, INJECT[1..], tail);
  }

  /** Exactly when the final check is right about every template: if and only if no value can make up an
      "[INJECT_" with what stands around it. */
  lemma CheckIsRightIff(ps: seq<Placeholder>)
    requires WellFormed(ps) && AllInject(ps) && BracketlessValues(ps) && SafeOrder(ps)
    ensures (forall t :: !Within(INJECT, Successive(ps, t)) <==> AllKnown(ps, t)) <==>
            (forall p :: p in ps ==> !Completes(p.value))
  {
    if forall p :: p in ps ==> !Completes(p.value) {
      forall t ensures !Within(INJECT, Successive(ps, t)) <==> AllKnown(ps, t) {
        SuccessiveIsSubstitute(ps, t);
        CheckSeesUnknown(ps, t);
      }
    } else {
      var p :| p in ps && Completes(p.value);
      var k, n := MissingPart(p.value);
      CompletedMarker(ps, p, k, n);
    }
  }

  /** A completing value stands for the part of "[INJECT_" from `k`, up to `n` or to the end and beyond. */
  lemma MissingPart(v: string) returns (k: nat, n: nat)
    requires Completes(v) && Bracketless(v)
    ensures 1 <= k < |INJECT| && k <= n <= |INJECT| && INJECT <= INJECT[..k] + (v + INJECT[n..])
  {
    if Within(v, INJECT) {
      k := MissingInside(v);
      n := k + |v|;
      assert INJECT == INJECT[..k] + (INJECT[k..n] + INJECT[n..]);
    } else {
      k :| 1 <= k < |INJECT| && INJECT[k..] <= v;
      n := |INJECT|;
      assert INJECT == INJECT[..k] + INJECT[k..];
      assert INJECT[n..] == "" && v + "" == v;
    }
  }

  lemma MissingInside(v: string) returns (k: nat)
    requires Within(v, INJECT) && Bracketless(v)
    ensures 1 <= k < |INJECT| && k + |v| <= |INJECT| && INJECT[k..k + |v|] == v
  {
    if v == "" {
      k := 1;
    } else {
      k :| 0 <= k <= |INJECT| && v <= INJECT[k..];
      assert v == INJECT[k..][..|v|] == INJECT[k..k + |v|];
      assert v[0] == INJECT[k];
    }
  }

  /** A template of known markers only, on which the value of `p` makes up an "[INJECT_". */
  lemma CompletedMarker(ps: seq<Placeholder>, p: Placeholder, k: nat, n: nat)
    requires WellFormed(ps) && AllInject(ps) && BracketlessValues(ps) && SafeOrder(ps)
    requires p in ps && 1 <= k < |INJECT| && k <= n <= |INJECT| && INJECT <= INJECT[..k] + (p.value + INJECT[n..])
    ensures AllKnown(ps, INJECT[..k] + (p.marker + INJECT[n..]))
    ensures Within(INJECT, Successive(ps, INJECT[..k] + (p.marker + INJECT[n..])))
  {
    var a, b := INJECT[..k], INJECT[n..];
    SuccessiveIsSubstitute(ps, a + (p.marker + b));
    InjectPieces(k, n);
    SubstituteOnce(ps, p, a, b);
    var r := a + (p.value + b);
    assert r[0..] == r;
    BrokenBeforeMarker(ps, p, k, n);
  }

  lemma InjectPieces(k: nat, n: nat)
    requires 1 <= k < |INJECT| && k <= n <= |INJECT|
    ensures INJECT[..k] != "" && INJECT[..k][0] == '[' && Lacks('[', INJECT[..k][1..]) && Lacks(']', INJECT[..k])
    ensures Lacks('[', INJECT[n..])
  {}

  lemma BrokenBeforeMarker(ps: seq<Placeholder>, p: Placeholder, k: nat, n: nat)
    requires WellFormed(ps) && p in ps && 1 <= k < |INJECT| && k <= n <= |INJECT|
    ensures AllKnown(ps, INJECT[..k] + (p.marker + INJECT[n..]))
  {
    var a, m, b := INJECT[..k], p.marker, INJECT[n..];
    var t := a + (m + b);
    InjectPieces(k, n);
    assert t[k] == '[' && INJECT[k] != '[' && t[0..] == t && t[k..] == m + b;
    assert forall i :: 0 <= i < k ==> t[i] == a[i];
    assert forall i :: k < i < k + |m| ==> t[i] == m[i - k];
    assert forall i :: k + |m| <= i < |t| ==> t[i] == b[i - k - |m|];
    forall i | 0 <= i <= |t| && INJECT <= t[i..] ensures MatchAtStart(ps, t[i..]).Some? {
      assert t[i] == '[' by { assert t[i..][0] == t[i]; }
      assert i == k;
      MatchIs(ps, p, m + b);
    }
  }

  /** `render_trigger_parse_prompt`; `None` is the PromptLoadError. */
  method RenderTriggerParsePrompt(content: string, ps: seq<Placeholder>) returns (r: Option<string>)
    requires WellFormed(ps)
    ensures r.Some? <==> !Within(INJECT, Successive(ps, content))
    ensures r.Some? ==> r.value == Successive(ps, content) && !Within(INJECT, r.value)
    ensures r.Some? && BracketlessValues(ps) && SafeOrder(ps) ==> r.value == Substitute(ps, content)
  {
    var rendered := content;
    var i := 0;
    while i < |ps|
      invariant 0 <= i <= |ps| && WellFormed(ps[i..])
      invariant Successive(ps[i..], rendered) == Successive(ps, content)
    {
      assert ps[i..][1..] == ps[i + 1..];
      rendered := Replace(rendered, ps[i].marker, ps[i].value);
      i := i + 1;
    }
    assert ps[i..] == [];
    if BracketlessValues(ps) && SafeOrder(ps) { SuccessiveIsSubstitute(ps, content); }
    if Within(INJECT, rendered) { return None; }
    return Some(rendered);
  }
}
