/**
 Replacing generation names in text. A generation's name is the hash of text in which every name is
 a placeholder; the name is then written back into that text. `Normal` puts the placeholders in and
 `Named` the name, each by leftmost, non-overlapping replacement after a fixed prefix.
 */
module Text {
  predicate Hex(c: char) {
    '0' <= c <= '9' || 'a' <= c <= 'f'
  }

  predicate IsHash(s: string) {
    |s| == 64 && forall k :: 0 <= k < 64 ==> Hex(s[k])
  }

  /** What follows the prefix: any hash, or one exact text. */
  datatype Form = AnyHash | Exactly(text: string)

  function Width(form: Form): nat {
    if form.AnyHash? then 64 else |form.text|
  }

  predicate Fills(form: Form, s: string) {
    if form.AnyHash? then IsHash(s) else s == form.text
  }

  /** `s` starts with `pre` followed by a text of the given form. */
  predicate Matches(s: string, pre: string, form: Form) {
    && |pre| + Width(form) <= |s|
    && s[..|pre|] == pre
    && Fills(form, s[|pre|..|pre| + Width(form)])
  }

  /** Every match, from the left and without overlap, keeps its prefix and gets `to` after it. */
  function Rewrite(s: string, pre: string, form: Form, to: string): string {
    if s == "" then ""
    else if Matches(s, pre, form) && 0 < |pre| then pre + to + Rewrite(s[|pre| + Width(form)..], pre, form, to)
    else [s[0]] + Rewrite(s[1..], pre, form, to)
  }

  /** No match anywhere. */
  ghost predicate Free(s: string, pre: string, form: Form) {
    forall k :: 0 <= k <= |s| ==> !Matches(s[k..], pre, form)
  }

  lemma FreeSuffix(s: string, pre: string, form: Form, n: nat)
    requires Free(s, pre, form) && n <= |s|
    ensures Free(s[n..], pre, form)
  {
    forall k | 0 <= k <= |s| - n ensures !Matches(s[n..][k..], pre, form) {
      assert s[n..][k..] == s[n + k..];
    }
  }

  /** Up to the first match nothing changes. */
  lemma {:induction false} CopyPrefix(s: string, pre: string, form: Form, to: string, n: nat)
    requires n <= |s|
    requires forall q :: 0 <= q < n ==> !Matches(s[q..], pre, form)
    ensures Rewrite(s, pre, form, to) == s[..n] + Rewrite(s[n..], pre, form, to)
  {
    if n == 0 {
      assert s[0..] == s;
    } else {
      assert s[0..] == s;
      forall q | 0 <= q < n - 1 ensures !Matches(s[1..][q..], pre, form) {
        assert s[1..][q..] == s[q + 1..];
      }
      CopyPrefix(s[1..], pre, form, to, n - 1);
      assert s[1..][n - 1..] == s[n..];
      assert s[..n] == [s[0]] + s[1..][..n - 1];
    }
  }

  lemma FreeUnchanged(s: string, pre: string, form: Form, to: string)
    requires Free(s, pre, form)
    ensures Rewrite(s, pre, form, to) == s
  {
    CopyPrefix(s, pre, form, to, |s|);
    assert s[..|s|] == s && s[|s|..] == "";
  }

  /** The first match of a text, or its length. */
  function First(s: string, pre: string, form: Form): (j: nat)
    ensures j <= |s|
    ensures forall q :: 0 <= q < j ==> !Matches(s[q..], pre, form)
    ensures j < |s| ==> Matches(s[j..], pre, form)
  {
    if s == "" || Matches(s, pre, form) then assert s[0..] == s; 0
    else
      var j := First(s[1..], pre, form);
      assert forall q :: 0 < q <= |s| ==> s[q..] == s[1..][q - 1..];
      assert s[0..] == s;
      j + 1
  }

  /** A character that no text of this form contains. */
  predicate Foreign(c: char, form: Form) {
    if form.AnyHash? then !Hex(c) else c !in form.text
  }

  lemma AtMatch(s: string, pre: string, form: Form, to: string)
    requires 0 < |pre| && Matches(s, pre, form)
    ensures |pre| <= |s| && s[..|pre|] == pre
    ensures Rewrite(s, pre, form, to) == pre + to + Rewrite(s[|pre| + Width(form)..], pre, form, to)
  {
  }

  lemma AtEnd(pre: string, form: Form, to: string)
    ensures Rewrite("", pre, form, to) == ""
  {
  }

  /** The text is unchanged through the prefix of its first match. */
  lemma AgreeToFirst(s: string, pre: string, form: Form, to: string, j: nat)
    requires 0 < |pre| && j <= |s|
    requires forall q :: 0 <= q < j ==> !Matches(s[q..], pre, form)
    requires j < |s| ==> Matches(s[j..], pre, form)
    ensures j == |s| ==> Rewrite(s, pre, form, to) == s
    ensures j < |s| ==>
      && j + |pre| <= |s|
      && j + |pre| <= |Rewrite(s, pre, form, to)|
      && Rewrite(s, pre, form, to)[..j + |pre|] == s[..j] + pre == s[..j + |pre|]
  {
    hide Rewrite, Matches;
    CopyPrefix(s, pre, form, to, j);
    if j == |s| {
      assert s[j..] == "" && s[..j] == s;
      AtEnd(pre, form, to);
    } else {
      AtMatch(s[j..], pre, form, to);
      var n := j + |pre|;
      assert s[..n] == s[..j] + s[j..][..|pre|];
    }
  }

  /** A match is decided by the characters it covers. */
  lemma MatchesSame(s: string, t: string, pre: string, form: Form)
    requires |pre| + Width(form) <= |s| && |pre| + Width(form) <= |t|
    requires s[..|pre| + Width(form)] == t[..|pre| + Width(form)]
    ensures Matches(s, pre, form) == Matches(t, pre, form)
  {
    var w := |pre| + Width(form);
    assert s[..|pre|] == s[..w][..|pre|] && t[..|pre|] == t[..w][..|pre|];
    assert s[|pre|..w] == s[..w][|pre|..] && t[|pre|..w] == t[..w][|pre|..];
  }

  /**
   Rewriting after `pre1` cannot put a match of `pre2` at the front, if the last character of `pre1`
   cannot stand where such a match would need it.
   */
  lemma FrontKept(s: string, pre1: string, form1: Form, to: string, pre2: string, form2: Form)
    requires 0 < |pre1| && !Matches(s, pre1, form1)
    requires Foreign(pre1[|pre1| - 1], form2) && (pre1 == pre2 || pre1[|pre1| - 1] !in pre2)
    requires Matches(Rewrite(s, pre1, form1, to), pre2, form2)
    ensures Matches(s, pre2, form2)
  {
    var out := Rewrite(s, pre1, form1, to);
    var j := First(s, pre1, form1);
    AgreeToFirst(s, pre1, form1, to, j);
    assert s[0..] == s;
    hide Rewrite, First;
    if j < |s| {
      FrontBefore(s, out, j, pre1, pre2, form2);
    }
  }

  lemma FrontBefore(s: string, out: string, j: nat, pre1: string, pre2: string, form2: Form)
    requires 0 < |pre1| && j + |pre1| <= |s| && j + |pre1| <= |out|
    requires out[..j + |pre1|] == s[..j] + pre1 == s[..j + |pre1|]
    requires Foreign(pre1[|pre1| - 1], form2) && (if pre1 == pre2 then 0 < j else pre1[|pre1| - 1] !in pre2)
    requires Matches(out, pre2, form2)
    ensures Matches(s, pre2, form2)
  {
    var n := j + |pre1|;
    var w := |pre2| + Width(form2);
    if w < n {
      assert out[..w] == out[..n][..w] && s[..w] == s[..n][..w];
      MatchesSame(s, out, pre2, form2);
    } else {
      assert out[n - 1] == out[..n][n - 1] == pre1[|pre1| - 1];
      if n - 1 < w { NeedsOwn(out, pre2, form2, n - 1); }
    }
  }

  /** Every position a match covers carries a character of the prefix or of the form. */
  lemma NeedsOwn(s: string, pre: string, form: Form, k: nat)
    requires Matches(s, pre, form) && k < |pre| + Width(form)
    ensures k < |pre| ==> s[k] == pre[k]
    ensures k >= |pre| ==> !Foreign(s[k], form)
  {
    if k < |pre| {
      assert s[..|pre|][k] == s[k];
    } else {
      assert s[|pre|..|pre| + Width(form)][k - |pre|] == s[k];
    }
  }

  /** A match that starts in a text covers a position carrying a character it cannot contain. */
  lemma NoMatchOver(s: string, pre: string, form: Form, q: nat, k: nat)
    requires q <= k < |s| && k < q + |pre| + Width(form)
    requires Foreign(s[k], form) && s[k] !in pre
    ensures !Matches(s[q..], pre, form)
  {
    if Matches(s[q..], pre, form) {
      NeedsOwn(s[q..], pre, form, k - q);
    }
  }

  /** Likewise when it would need its own character `d` at a position that carries another one. */
  lemma NoMatchAt(s: string, pre: string, form: Form, q: nat, d: nat)
    requires d < |pre| && q + d < |s| && s[q + d] != pre[d]
    ensures !Matches(s[q..], pre, form)
  {
    if Matches(s[q..], pre, form) {
      NeedsOwn(s[q..], pre, form, d);
    }
  }

  // ---------- normalizing leaves no name behind ----------

  /** `hole` stands for a name: it starts and ends with characters no prefix or hash contains. */
  predicate Marks(hole: string, pre: string) {
    && 0 < |hole|
    && hole[0] !in pre && !Hex(hole[0])
    && hole[|hole| - 1] !in pre && !Hex(hole[|hole| - 1])
  }

  lemma {:induction false} HolesFree(s: string, pre1: string, hole: string, pre2: string)
    requires 0 < |pre1| && |pre1| < 64 + |pre2| && |hole| <= 64 && Marks(hole, pre2)
    requires !Hex(pre1[|pre1| - 1]) && (pre1 == pre2 || pre1[|pre1| - 1] !in pre2)
    requires pre1 == pre2 || Free(s, pre2, AnyHash)
    ensures Free(Rewrite(s, pre1, AnyHash, hole), pre2, AnyHash)
    decreases |s|
  {
    var out := Rewrite(s, pre1, AnyHash, hole);
    if s == "" {
    } else if Matches(s, pre1, AnyHash) {
      var rest := s[|pre1| + 64..];
      if pre1 != pre2 { FreeSuffix(s, pre2, AnyHash, |pre1| + 64); }
      HolesFree(rest, pre1, hole, pre2);
      var n := |pre1| + |hole|;
      forall k | 0 <= k <= |out| ensures !Matches(out[k..], pre2, AnyHash) {
        if k <= |pre1| {
          NoMatchOver(out, pre2, AnyHash, k, |pre1|);
        } else if k < n {
          NoMatchOver(out, pre2, AnyHash, k, n - 1);
        } else {
          assert out[k..] == Rewrite(rest, pre1, AnyHash, hole)[k - n..];
        }
      }
    } else {
      if pre1 != pre2 { FreeSuffix(s, pre2, AnyHash, 1); }
      HolesFree(s[1..], pre1, hole, pre2);
      forall k | 0 <= k <= |out| ensures !Matches(out[k..], pre2, AnyHash) {
        if k == 0 {
          assert out[0..] == out && s[0..] == s;
          if Matches(out, pre2, AnyHash) {
            FrontKept(s, pre1, AnyHash, hole, pre2, AnyHash);
          }
        } else {
          assert out[k..] == Rewrite(s[1..], pre1, AnyHash, hole)[k - 1..];
        }
      }
    }
  }

  lemma AbsentInPrefix(s: string, out: string, pre: string, k: nat, t: string)
    requires k < |pre| <= |s| && |pre| <= |out| && s[..|pre|] == pre == out[..|pre|]
    requires 0 < |t| && pre[|pre| - 1] !in t && Free(s, t, Exactly(""))
    ensures !Matches(out[k..], t, Exactly(""))
  {
    var p := |pre|;
    if k + |t| >= p {
      assert out[p - 1] == out[..p][p - 1];
      NoMatchOver(out, t, Exactly(""), k, p - 1);
    } else {
      assert out[k..][..|t|] == out[..p][k..k + |t|] == s[..p][k..k + |t|] == s[k..][..|t|];
      MatchesSame(s[k..], out[k..], t, Exactly(""));
    }
  }

  /** A text that is absent stays absent, when names and prefixes cannot take part in it. */
  lemma {:induction false} AbsentKept(s: string, pre: string, form: Form, to: string, t: string)
    requires 0 < |pre| && 0 < |t| && pre[|pre| - 1] !in t && t[0] !in to
    requires Free(s, t, Exactly(""))
    ensures Free(Rewrite(s, pre, form, to), t, Exactly(""))
    decreases |s|
  {
    var out := Rewrite(s, pre, form, to);
    var p := |pre|;
    if s == "" {
    } else if Matches(s, pre, form) {
      var rest := s[p + Width(form)..];
      FreeSuffix(s, t, Exactly(""), p + Width(form));
      AbsentKept(rest, pre, form, to, t);
      var n := p + |to|;
      AtMatch(s, pre, form, to);
      forall k | 0 <= k <= |out| ensures !Matches(out[k..], t, Exactly("")) {
        if k < p {
          AbsentInPrefix(s, out, pre, k, t);
        } else if k < n {
          assert out[k] == to[k - p];
          NoMatchAt(out, t, Exactly(""), k, 0);
        } else {
          assert out[k..] == Rewrite(rest, pre, form, to)[k - n..];
        }
      }
    } else {
      FreeSuffix(s, t, Exactly(""), 1);
      AbsentKept(s[1..], pre, form, to, t);
      forall k | 0 <= k <= |out| ensures !Matches(out[k..], t, Exactly("")) {
        if k == 0 {
          assert out[0..] == out && s[0..] == s;
          if Matches(out, t, Exactly("")) {
            FrontKept(s, pre, form, to, t, Exactly(""));
          }
        } else {
          assert out[k..] == Rewrite(s[1..], pre, form, to)[k - 1..];
        }
      }
    }
  }

  /** Rewriting brings in no character but those of the prefix and the new text. */
  lemma {:induction false} CharacterKept(s: string, pre: string, form: Form, to: string, c: char)
    requires c !in s && c !in pre && c !in to
    ensures c !in Rewrite(s, pre, form, to)
    decreases |s|
  {
    if s == "" {
    } else if Matches(s, pre, form) && 0 < |pre| {
      CharacterKept(s[|pre| + Width(form)..], pre, form, to, c);
    } else {
      CharacterKept(s[1..], pre, form, to, c);
    }
  }

  /** What a part of a text holds, the text holds. */
  lemma MatchesLonger(s: string, t: string, pre: string, form: Form)
    requires Matches(s, pre, form)
    ensures Matches(s + t, pre, form)
  {
    var w := |pre| + Width(form);
    assert (s + t)[..w] == s[..w];
    MatchesSame(s, s + t, pre, form);
  }

  lemma FreeInside(a: string, s: string, b: string, pre: string, form: Form)
    requires Free(a + s + b, pre, form)
    ensures Free(s, pre, form)
  {
    var whole := a + s + b;
    forall k | 0 <= k <= |s| ensures !Matches(s[k..], pre, form) {
      assert whole[|a| + k..] == s[k..] + b;
      if Matches(s[k..], pre, form) {
        MatchesLonger(s[k..], b, pre, form);
      }
    }
  }

  // ---------- one name, written in and taken out ----------

  /**
   The texts involved: names follow `r` or `m`, and `h` stands for a name. 
   */
  datatype Words = Words(r: string, m: string, h: string)

  ghost predicate Suitable(w: Words) {
    && |w.r| == 29 && |w.m| == 40 && |w.h| == 12
    && !Hex(w.r[28]) && w.r[28] !in w.h && w.r[28] !in w.m
    && !Hex(w.m[39]) && w.m[39] !in w.r
    && w.r[0] !in w.m && w.r[0] !in w.h && !Hex(w.r[0])
    && w.r[1] != w.h[0] && !Hex(w.r[1])
    && Marks(w.h, w.r) && Marks(w.h, w.m)
    && w.m[0] !in w.h && !Hex(w.m[1])
    && (forall t :: 0 < t < 28 && w.r[t] == w.r[0] ==> w.r[t + 1] != w.r[1])
    && (forall t :: 0 < t < 39 && w.m[t] == w.m[0] ==> w.m[t + 1] != w.m[1])
    && w.m[39] != w.m[0]
  }

  /** Names become placeholders. */
  function Normal(s: string, w: Words): string {
    Rewrite(Rewrite(s, w.r, AnyHash, w.h), w.m, AnyHash, w.h)
  }

  /** Placeholders become the name `g`. */
  function Named(s: string, w: Words, g: string): string {
    Rewrite(Rewrite(s, w.r, Exactly(w.h), g), w.m, Exactly(w.h), g)
  }

  ghost predicate Clean(s: string, w: Words) {
    Free(s, w.r, AnyHash) && Free(s, w.m, AnyHash)
  }

  /** Normal text holds no name. */
  lemma NormalIsClean(s: string, w: Words)
    requires Suitable(w)
    ensures Clean(Normal(s, w), w)
  {
    var s1 := Rewrite(s, w.r, AnyHash, w.h);
    HolesFree(s, w.r, w.h, w.r);
    HolesFree(s1, w.m, w.h, w.r);
    HolesFree(s1, w.m, w.h, w.m);
  }

  /** Clean text is already normal. */
  lemma CleanIsNormal(s: string, w: Words)
    requires Clean(s, w)
    ensures Normal(s, w) == s
  {
    FreeUnchanged(s, w.r, AnyHash, w.h);
    FreeUnchanged(s, w.m, AnyHash, w.h);
  }

  /** A reference directly followed by the rest of a marker: an unlucky name would complete it. */
  predicate SeamAt(s: string, w: Words)
    requires 0 < |w.m|
  {
    Matches(s, w.r, Exactly(w.h)) && Matches(s[|w.r| + |w.h|..], w.m[1..], Exactly(w.h))
  }

  ghost predicate Seam(s: string, w: Words)
    requires 0 < |w.m|
  {
    exists k :: 0 <= k <= |s| && SeamAt(s[k..], w)
  }

  /** Away from a match, one character is copied. */
  lemma AtOther(s: string, pre: string, form: Form, to: string)
    requires s != "" && !Matches(s, pre, form)
    ensures Rewrite(s, pre, form, to) == [s[0]] + Rewrite(s[1..], pre, form, to)
  {
  }

  /** The other character case: nothing at the front, nothing appears at the front. */
  lemma StepOther(e: string, w: Words, g: string)
    requires Suitable(w) && Clean(e, w) && IsHash(g) && e != ""
    requires !Matches(e, w.r, Exactly(w.h)) && !Matches(e, w.m, Exactly(w.h))
    ensures Normal(Named(e, w, g), w) == [e[0]] + Normal(Named(e[1..], w, g), w)
  {
    assert e[0..] == e;
    var y := Rewrite(e, w.r, Exactly(w.h), g);
    var y' := Rewrite(e[1..], w.r, Exactly(w.h), g);
    AtOther(e, w.r, Exactly(w.h), g);
    if Matches(y, w.m, Exactly(w.h)) { FrontKept(e, w.r, Exactly(w.h), g, w.m, Exactly(w.h)); }
    if Matches(y, w.r, AnyHash) { FrontKept(e, w.r, Exactly(w.h), g, w.r, AnyHash); }
    if Matches(y, w.m, AnyHash) { FrontKept(e, w.r, Exactly(w.h), g, w.m, AnyHash); }
    assert y[1..] == y';
    AtOther(y, w.m, Exactly(w.h), g);
    var z := Rewrite(y, w.m, Exactly(w.h), g);
    if Matches(z, w.r, AnyHash) { FrontKept(y, w.m, Exactly(w.h), g, w.r, AnyHash); }
    if Matches(z, w.m, AnyHash) { FrontKept(y, w.m, Exactly(w.h), g, w.m, AnyHash); }
    assert z[1..] == Rewrite(y', w.m, Exactly(w.h), g);
    AtOther(z, w.r, AnyHash, w.h);
    var u := Rewrite(z, w.r, AnyHash, w.h);
    if Matches(u, w.m, AnyHash) { FrontKept(z, w.r, AnyHash, w.h, w.m, AnyHash); }
    AtOther(u, w.m, AnyHash, w.h);
    assert u[1..] == Rewrite(z[1..], w.r, AnyHash, w.h);
  }

  /** A text with none of a character passes a rewriting that starts at that character. */
  lemma PassOver(a: string, s: string, pre: string, form: Form, to: string)
    requires 0 < |pre| && pre[0] !in a
    ensures Rewrite(a + s, pre, form, to) == a + Rewrite(s, pre, form, to)
  {
    forall q | 0 <= q < |a| ensures !Matches((a + s)[q..], pre, form) {
      assert (a + s)[q] == a[q];
      NoMatchAt(a + s, pre, form, q, 0);
    }
    CopyPrefix(a + s, pre, form, to, |a|);
    assert (a + s)[|a|..] == s && (a + s)[..|a|] == a;
  }

  /** A prefix with its filling, in front of anything. */
  lemma Replaced(pre: string, form: Form, was: string, s: string, to: string)
    requires 0 < |pre| && |was| == Width(form) && Fills(form, was)
    ensures Rewrite(pre + was + s, pre, form, to) == pre + to + Rewrite(s, pre, form, to)
  {
    var x := pre + was + s;
    assert x[..|pre|] == pre;
    assert x[|pre|..|pre| + Width(form)] == was;
    assert x[|pre| + Width(form)..] == s;
    AtMatch(x, pre, form, to);
  }

  /** A marker's placeholder goes and comes back. */
  lemma StepMarker(rest: string, w: Words, g: string)
    requires Suitable(w) && IsHash(g)
    ensures Normal(Named(w.m + w.h + rest, w, g), w) == w.m + w.h + Normal(Named(rest, w, g), w)
  {
    hide Rewrite, Matches;
    var y := Rewrite(rest, w.r, Exactly(w.h), g);
    PassOver(w.m + w.h, rest, w.r, Exactly(w.h), g);
    Replaced(w.m, Exactly(w.h), w.h, y, g);
    var z := Rewrite(y, w.m, Exactly(w.h), g);
    PassOver(w.m + g, z, w.r, AnyHash, w.h);
    Replaced(w.m, AnyHash, g, Rewrite(z, w.r, AnyHash, w.h), w.h);
  }

  /** No marker starts inside a reference. */
  lemma NoMarkerIn(x: string, w: Words, form: Form, q: nat)
    requires form == AnyHash || form == Exactly(w.h)
    requires Suitable(w) && 29 <= |x| && x[28] == w.r[28] && q <= 28
    ensures !Matches(x[q..], w.m, form)
  {
    NoMatchOver(x, w.m, form, q, 28);
  }

  /** A placeholder completes a marker only across a seam. */
  lemma MarkerAfterReference(rest: string, w: Words, g: string)
    requires Suitable(w) && IsHash(g)
    requires g[63] == w.m[0] ==> !SeamAt(w.r + w.h + rest, w)
    ensures Rewrite(w.r + g + rest, w.m, Exactly(w.h), g) == w.r + g + Rewrite(rest, w.m, Exactly(w.h), g)
  {
    var x := w.r + g + rest;
    var form := Exactly(w.h);
    hide Rewrite;
    forall q | 0 <= q < 93 ensures !Matches(x[q..], w.m, form) {
      hide Matches;
      if q <= 28 {
        NoMarkerIn(x, w, form, q);
      } else if q < 92 {
        assert x[q + 1] == g[q + 1 - 29];
        NoMatchAt(x, w.m, form, q, 1);
      } else if Matches(x[92..], w.m, form) {
        LastLetter(rest, w, g);
      }
    }
    CopyPrefix(x, w.m, form, g, 93);
    assert x[93..] == rest && x[..93] == w.r + g;
  }

  lemma LastLetter(rest: string, w: Words, g: string)
    requires Suitable(w) && IsHash(g)
    requires Matches((w.r + g + rest)[92..], w.m, Exactly(w.h))
    ensures g[63] == w.m[0] && SeamAt(w.r + w.h + rest, w)
  {
    var y := (w.r + g + rest)[92..];
    assert y == [g[63]] + rest;
    assert y[..40] == w.m && y[40..52] == w.h;
    assert rest[..39] == w.m[1..] && rest[39..51] == w.h;
    var v := w.r + w.h + rest;
    assert v[..29] == w.r && v[29..41] == w.h && v[41..] == rest;
  }

  /** Nor does a hash: a reference's placeholder ends in a character no marker contains. */
  lemma HashAfterReference(rest: string, w: Words)
    requires Suitable(w)
    ensures Rewrite(w.r + w.h + rest, w.m, AnyHash, w.h) == w.r + w.h + Rewrite(rest, w.m, AnyHash, w.h)
  {
    var x := w.r + w.h + rest;
    hide Rewrite;
    forall q | 0 <= q < 41 ensures !Matches(x[q..], w.m, AnyHash) {
      if q <= 28 {
        NoMarkerIn(x, w, AnyHash, q);
      } else {
        NoMatchOver(x, w.m, AnyHash, q, 40);
      }
    }
    CopyPrefix(x, w.m, AnyHash, w.h, 41);
    assert x[41..] == rest && x[..41] == w.r + w.h;
  }

  /** The seam looks the same before and after names are written after it. */
  lemma SeamKept(rest: string, w: Words, g: string)
    requires Suitable(w) && IsHash(g)
    requires SeamAt(w.r + w.h + Rewrite(rest, w.r, Exactly(w.h), g), w)
    ensures SeamAt(w.r + w.h + rest, w)
  {
    var y := Rewrite(rest, w.r, Exactly(w.h), g);
    hide Rewrite;
    TailKept(rest, w, g);
    assert (w.r + w.h + y)[41..] == y;
    assert (w.r + w.h + rest)[41..] == rest;
    assert (w.r + w.h + rest)[..29] == w.r && (w.r + w.h + rest)[29..41] == w.h;
  }

  lemma TailKept(rest: string, w: Words, g: string)
    requires Suitable(w)
    ensures Matches(Rewrite(rest, w.r, Exactly(w.h), g), w.m[1..], Exactly(w.h))
        ==> Matches(rest, w.m[1..], Exactly(w.h))
  {
    var y := Rewrite(rest, w.r, Exactly(w.h), g);
    if Matches(rest, w.r, Exactly(w.h)) {
      AtMatch(rest, w.r, Exactly(w.h), g);
      assert y[0..] == y;
      NoMatchAt(y, w.m[1..], Exactly(w.h), 0, 0);
    } else if Matches(y, w.m[1..], Exactly(w.h)) {
      FrontKept(rest, w.r, Exactly(w.h), g, w.m[1..], Exactly(w.h));
    }
  }

  /** Without a seam, a reference's placeholder goes and comes back. */
  lemma StepReference(rest: string, w: Words, g: string)
    requires Suitable(w) && IsHash(g)
    requires g[63] == w.m[0] ==> !SeamAt(w.r + w.h + rest, w)
    ensures Normal(Named(w.r + w.h + rest, w, g), w) == w.r + w.h + Normal(Named(rest, w, g), w)
  {
    hide Rewrite, Matches;
    var y := Rewrite(rest, w.r, Exactly(w.h), g);
    Replaced(w.r, Exactly(w.h), w.h, rest, g);
    if g[63] == w.m[0] && SeamAt(w.r + w.h + y, w) { SeamKept(rest, w, g); }
    MarkerAfterReference(y, w, g);
    var z := Rewrite(y, w.m, Exactly(w.h), g);
    Replaced(w.r, AnyHash, g, z, w.h);
    HashAfterReference(Rewrite(z, w.r, AnyHash, w.h), w);
  }

  lemma SeamText(e: string, w: Words)
    requires Suitable(w) && SeamAt(e, w)
    ensures 92 <= |e| && e == w.r + w.h + (w.m[1..] + w.h + e[92..]) && e[80] == w.h[0]
  {
    Parted(e, w.r, w.h);
    Parted(e[41..], w.m[1..], w.h);
    assert e[41..][51..] == e[92..];
  }

  /** Across a seam, a name ending in the marker's first character is never taken out again. */
  lemma StepSeam(e: string, w: Words, g: string)
    requires Suitable(w) && IsHash(g) && SeamAt(e, w) && g[63] == w.m[0]
    ensures Normal(Named(e, w, g), w) != e
  {
    SeamText(e, w);
    SeamNamed(e[92..], w, g);
    assert Hex(g[0]);
  }

  lemma SeamNamed(rest: string, w: Words, g: string)
    requires Suitable(w) && IsHash(g) && g[63] == w.m[0]
    ensures
      var out := Normal(Named(w.r + w.h + (w.m[1..] + w.h + rest), w, g), w);
      80 < |out| && out[80] == g[0]
  {
    var tail := w.m[1..];
    hide Rewrite, Matches;
    var y := Rewrite(rest, w.r, Exactly(w.h), g);
    Replaced(w.r, Exactly(w.h), w.h, tail + w.h + rest, g);
    PassOver(tail + w.h, rest, w.r, Exactly(w.h), g);
    var z := Rewrite(y, w.m, Exactly(w.h), g);
    MarkerAcross(y, w, g);
    SeamNormal(z, w, g);
  }

  lemma Regroup(w: Words, g: string, z: string)
    requires 0 < |w.m| && |g| == 64 && g[63] == w.m[0]
    ensures w.r + g[..63] + w.m + g + z == w.r + g + (w.m[1..] + g + z)
  {
    assert g == g[..63] + [g[63]] && w.m == [w.m[0]] + w.m[1..];
  }

  lemma TailNormal(s: string, w: Words)
    requires Suitable(w) && |w.m| == 40 && 2 <= |s| && Hex(s[1])
    ensures
      var out := Rewrite(w.r + w.h + (w.m[1..] + s), w.m, AnyHash, w.h);
      80 < |out| && out[80] == s[0]
  {
    hide Rewrite;
    HashAfterReference(w.m[1..] + s, w);
    TailStays(s, w);
    FirstLetterStays(s, w);
  }

  lemma SeamNormal(z: string, w: Words, g: string)
    requires Suitable(w) && IsHash(g) && g[63] == w.m[0]
    ensures
      var out := Normal(w.r + g[..63] + w.m + g + z, w);
      80 < |out| && out[80] == g[0]
  {
    var tail := w.m[1..];
    hide Rewrite, Matches;
    Regroup(w, g, z);
    Replaced(w.r, AnyHash, g, tail + g + z, w.h);
    assert w.r[0] !in tail + g by { assert w.r[0] !in w.m && !Hex(w.r[0]); }
    hide Suitable;
    PassOver(tail + g, z, w.r, AnyHash, w.h);
    var u := Rewrite(z, w.r, AnyHash, w.h);
    assert w.r + w.h + (tail + g + u) == w.r + w.h + (tail + (g + u));
    TailNormal(g + u, w);
  }

  lemma MarkerAcross(y: string, w: Words, g: string)
    requires Suitable(w) && IsHash(g) && g[63] == w.m[0]
    ensures Rewrite(w.r + g + (w.m[1..] + w.h + y), w.m, Exactly(w.h), g)
         == w.r + g[..63] + w.m + g + Rewrite(y, w.m, Exactly(w.h), g)
  {
    var x := w.r + g + (w.m[1..] + w.h + y);
    var form := Exactly(w.h);
    hide Rewrite, Matches;
    forall q | 0 <= q < 92 ensures !Matches(x[q..], w.m, form) {
      if q <= 28 {
        NoMarkerIn(x, w, form, q);
      } else {
        assert x[q + 1] == g[q + 1 - 29];
        NoMatchAt(x, w.m, form, q, 1);
      }
    }
    CopyPrefix(x, w.m, form, g, 92);
    assert x[92..] == w.m + w.h + y && x[..92] == w.r + g[..63];
    Replaced(w.m, form, w.h, y, g);
  }

  lemma TailStays(s: string, w: Words)
    requires Suitable(w)
    ensures Rewrite(w.m[1..] + s, w.m, AnyHash, w.h) == w.m[1..] + Rewrite(s, w.m, AnyHash, w.h)
  {
    var x := w.m[1..] + s;
    hide Rewrite, Matches;
    forall q | 0 <= q < 39 ensures !Matches(x[q..], w.m, AnyHash) {
      assert x[q] == w.m[q + 1];
      if w.m[q + 1] == w.m[0] {
        assert x[q + 1] == w.m[q + 2];
        NoMatchAt(x, w.m, AnyHash, q, 1);
      } else {
        NoMatchAt(x, w.m, AnyHash, q, 0);
      }
    }
    CopyPrefix(x, w.m, AnyHash, w.h, 39);
    assert x[39..] == s && x[..39] == w.m[1..];
  }

  lemma FirstLetterStays(s: string, w: Words)
    requires Suitable(w) && 2 <= |s| && Hex(s[1])
    ensures Rewrite(s, w.m, AnyHash, w.h) != "" && Rewrite(s, w.m, AnyHash, w.h)[0] == s[0]
  {
    assert s[0..] == s;
    NoMatchAt(s, w.m, AnyHash, 0, 1);
  }

  // ---------- the round trip, exactly ----------

  lemma SeamSuffix(e: string, w: Words, n: nat)
    requires 0 < |w.m| && n <= |e|
    requires forall q :: 0 <= q < n ==> !SeamAt(e[q..], w)
    ensures Seam(e, w) <==> Seam(e[n..], w)
  {
    forall k | 0 <= k <= |e| - n ensures e[n..][k..] == e[n + k..] {
    }
    if Seam(e, w) {
      var k :| 0 <= k <= |e| && SeamAt(e[k..], w);
      assert e[k..] == e[n..][k - n..];
    }
    if Seam(e[n..], w) {
      var k :| 0 <= k <= |e[n..]| && SeamAt(e[n..][k..], w);
      assert e[n..][k..] == e[n + k..];
    }
  }

  lemma MatchesInside(a: string, s: string, b: string, k: nat, pre: string, form: Form)
    requires k <= |s| && Matches(s[k..], pre, form)
    ensures Matches((a + s + b)[|a| + k..], pre, form)
  {
    MatchesLonger(s[k..], b, pre, form);
    assert (a + s + b)[|a| + k..] == s[k..] + b;
  }

  lemma SeamOutside(a: string, s: string, b: string, w: Words)
    requires 0 < |w.m| && Seam(s, w)
    ensures Seam(a + s + b, w)
  {
    var whole := a + s + b;
    var n := |w.r| + |w.h|;
    var k :| 0 <= k <= |s| && SeamAt(s[k..], w);
    assert s[k..][n..] == s[k + n..];
    MatchesInside(a, s, b, k, w.r, Exactly(w.h));
    MatchesInside(a, s, b, k + n, w.m[1..], Exactly(w.h));
    hide Matches;
    assert whole[|a| + k..][n..] == whole[|a| + k + n..];
  }

  lemma NoSeamInside(e: string, w: Words)
    requires Suitable(w)
    ensures Matches(e, w.m, Exactly(w.h)) ==> forall q :: 0 <= q < 52 ==> !SeamAt(e[q..], w)
    ensures Matches(e, w.r, Exactly(w.h)) ==> forall q :: 0 < q < 41 ==> !SeamAt(e[q..], w)
  {
    if Matches(e, w.m, Exactly(w.h)) {
      forall q | 0 <= q < 52 ensures !SeamAt(e[q..], w) {
        NeedsOwn(e, w.m, Exactly(w.h), q);
        NoMatchAt(e, w.r, Exactly(w.h), q, 0);
      }
    }
    if Matches(e, w.r, Exactly(w.h)) {
      forall q | 0 < q < 41 ensures !SeamAt(e[q..], w) {
        NeedsOwn(e, w.r, Exactly(w.h), q);
        if q < 29 && w.r[q] == w.r[0] {
          NeedsOwn(e, w.r, Exactly(w.h), q + 1);
          if q == 28 { assert e[29] == e[29..41][0]; }
          NoMatchAt(e, w.r, Exactly(w.h), q, 1);
        } else {
          NoMatchAt(e, w.r, Exactly(w.h), q, 0);
        }
      }
    }
  }

  /**
   Writing a name into clean text and taking it out again gives the text back exactly when the name
   cannot complete a marker across a seam.
   */
  lemma {:induction false} RoundTrip(e: string, w: Words, g: string)
    requires Suitable(w) && Clean(e, w) && IsHash(g)
    ensures Normal(Named(e, w, g), w) == e <==> !(g[63] == w.m[0] && Seam(e, w))
    decreases |e|
  {
    assert e[0..] == e;
    NoSeamInside(e, w);
    hide Rewrite;
    if e == "" {
      NothingToName(w, g);
    } else if Matches(e, w.r, Exactly(w.h)) {
      if SeamAt(e, w) && g[63] == w.m[0] {
        StepSeam(e, w, g);
      } else {
        Parted(e, w.r, w.h);
        CleanSuffix(e, w, 41);
        RoundTrip(e[41..], w, g);
        StepReference(e[41..], w, g);
        if g[63] == w.m[0] { SeamSuffix(e, w, 41); }
      }
    } else if Matches(e, w.m, Exactly(w.h)) {
      Parted(e, w.m, w.h);
      CleanSuffix(e, w, 52);
      RoundTrip(e[52..], w, g);
      StepMarker(e[52..], w, g);
      SeamSuffix(e, w, 52);
    } else {
      CleanSuffix(e, w, 1);
      RoundTrip(e[1..], w, g);
      StepOther(e, w, g);
      SeamSuffix(e, w, 1);
      assert e == [e[0]] + e[1..];
    }
  }

  lemma NothingToName(w: Words, g: string)
    requires Suitable(w)
    ensures Normal(Named("", w, g), w) == "" && !Seam("", w)
  {
  }

  lemma Parted(e: string, pre: string, hole: string)
    requires Matches(e, pre, Exactly(hole))
    ensures e == pre + hole + e[|pre| + |hole|..]
  {
    assert e == e[..|pre|] + e[|pre|..|pre| + |hole|] + e[|pre| + |hole|..];
  }

  lemma CleanSuffix(e: string, w: Words, n: nat)
    requires Clean(e, w) && n <= |e|
    ensures Clean(e[n..], w)
  {
    FreeSuffix(e, w.r, AnyHash, n);
    FreeSuffix(e, w.m, AnyHash, n);
  }

  // ---------- the program's own words ----------

  const PATH := "/var/lib" + "/cnftctl" + "/generations/"
  const MARK := "cnftctl-owned:" + "inet-hostfw:" + "v1:generation:"
  const HOLE := "{generation}"
  const NAMES := Words(PATH, MARK, HOLE)

  lemma NamesSuit()
    ensures Suitable(NAMES) && NAMES.m[0] == 'c'
  {
    HoleLetters();
    PathLetters();
    MarkLetters();
  }

  lemma HoleLetters()
    ensures |HOLE| == 12 && HOLE[0] == '{' && HOLE[11] == '}' && '/' !in HOLE && 'c' !in HOLE
  {
  }

  /** No braces, and the pair `ab` occurs at most at the front. */
  predicate Letters(s: string, other: char, a: char, b: char) {
    && '{' !in s && '}' !in s && other !in s
    && forall t :: 0 < t < |s| - 1 && s[t] == a ==> s[t + 1] != b
  }

  lemma Joined(s: string, t: string, other: char, a: char, b: char)
    requires Letters(s, other, a, b) && Letters(t, other, a, b)
    requires 0 < |s| && 1 < |t| && s[|s| - 1] != a && (t[0] != a || t[1] != b)
    ensures Letters(s + t, other, a, b)
  {
    forall k | 0 < k < |s + t| - 1 && (s + t)[k] == a ensures (s + t)[k + 1] != b {
      if k < |s| {
        assert (s + t)[k] == s[k] && (s + t)[k + 1] == s[k + 1];
      } else {
        assert (s + t)[k] == t[k - |s|] && (s + t)[k + 1] == t[k + 1 - |s|];
      }
    }
  }

  lemma PathLetters()
    ensures |PATH| == 29 && PATH[0] == PATH[28] == '/' && PATH[1] == 'v'
    ensures Letters(PATH, ':', '/', 'v')
  {
    PathWords();
    Joined("/var/lib", "/cnftctl", ':', '/', 'v');
    Joined("/var/lib" + "/cnftctl", "/generations/", ':', '/', 'v');
  }

  lemma PathWords()
    ensures Letters("/var/lib", ':', '/', 'v')
    ensures Letters("/cnftctl", ':', '/', 'v')
    ensures Letters("/generations/", ':', '/', 'v')
  {
    assert Letters("/var/lib", ':', '/', 'v');
    assert Letters("/cnftctl", ':', '/', 'v');
  }

  lemma MarkLetters()
    ensures |MARK| == 40 && MARK[0] == 'c' && MARK[1] == 'n' && MARK[39] == ':'
    ensures Letters(MARK, '/', 'c', 'n')
  {
    MarkWords();
    Joined("cnftctl-owned:", "inet-hostfw:", '/', 'c', 'n');
    Joined("cnftctl-owned:" + "inet-hostfw:", "v1:generation:", '/', 'c', 'n');
  }

  lemma MarkWords()
    ensures Letters("cnftctl-owned:", '/', 'c', 'n')
    ensures Letters("inet-hostfw:", '/', 'c', 'n')
    ensures Letters("v1:generation:", '/', 'c', 'n')
  {
    assert Letters("cnftctl-owned:", '/', 'c', 'n');
    assert Letters("inet-hostfw:", '/', 'c', 'n');
  }

  /** The round trip does fail: this text is clean, and any name ending in 'c' breaks it. */
  lemma SeamBreaks(g: string)
    requires IsHash(g) && g[63] == 'c'
    ensures
      var e := PATH + HOLE + (MARK[1..] + HOLE);
      && Clean(e, NAMES) && Normal(e, NAMES) == e
      && Normal(Named(e, NAMES, g), NAMES) != e
  {
    var e := PATH + HOLE + (MARK[1..] + HOLE);
    HoleLetters();
    PathLetters();
    MarkLetters();
    NamesSuit();
    hide Suitable, Letters;
    assert Clean(e, NAMES);
    CleanIsNormal(e, NAMES);
    assert e[0..] == e;
    assert e[..29] == PATH && e[29..41] == HOLE && e[41..] == MARK[1..] + HOLE;
    assert e[41..][..39] == MARK[1..] && e[41..][39..51] == HOLE;
    assert SeamAt(e[0..], NAMES);
    RoundTrip(e, NAMES, g);
  }

  // ---------- lines ----------

  function Join(ls: seq<string>): string {
    if ls == [] then "" else if |ls| == 1 then ls[0] else ls[0] + "\n" + Join(ls[1..])
  }

  function Split(s: string): (r: seq<string>)
    ensures 0 < |r|
  {
    if s == "" then [""]
    else
      var r := Split(s[1..]);
      if s[0] == '\n' then [""] + r else [[s[0]] + r[0]] + r[1..]
  }

  ghost predicate Lines(ls: seq<string>) {
    ls != [] && forall i :: 0 <= i < |ls| ==> '\n' !in ls[i]
  }

  lemma {:induction false} SplitLine(a: string, b: string)
    requires '\n' !in a
    ensures Split(a + "\n" + b) == [a] + Split(b)
  {
    var s := a + "\n" + b;
    if a == "" {
      assert s[1..] == b;
    } else {
      assert s[1..] == a[1..] + "\n" + b;
      SplitLine(a[1..], b);
      assert a == [a[0]] + a[1..];
    }
  }

  lemma {:induction false} SplitOne(a: string)
    requires '\n' !in a
    ensures Split(a) == [a]
  {
    if a != "" {
      SplitOne(a[1..]);
      assert a == [a[0]] + a[1..];
    }
  }

  lemma {:induction false} SplitJoin(ls: seq<string>)
    requires Lines(ls)
    ensures Split(Join(ls)) == ls
  {
    if |ls| == 1 {
      SplitOne(ls[0]);
    } else {
      SplitJoin(ls[1..]);
      SplitLine(ls[0], Join(ls[1..]));
    }
  }
}
