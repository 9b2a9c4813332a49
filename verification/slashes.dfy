/** The string operations on `/` that the URL and cache code relies on:
    Python's `lstrip("/")`, `rstrip("/")`, `strip("/")` and `split("/", 1)`. */
module Slashes {
  import opened Wrappers

  /** Every character of `s` is a slash. */
  predicate AllSlashes(s: string) {
    forall i :: 0 <= i < |s| ==> s[i] == '/'
  }

  /** The characters of `s` from `lo` up to `hi` are all slashes. */
  predicate SlashesIn(s: string, lo: int, hi: int)
    requires 0 <= lo && hi <= |s|
  {
    forall i :: lo <= i < hi ==> s[i] == '/'
  }

  /** `s.lstrip("/")`: the suffix of `s` left after its leading slashes. */
  function LStrip(s: string): (r: string)
    ensures |r| <= |s| && r == s[|s| - |r|..]
    ensures r == [] || r[0] != '/'
  {
    if |s| > 0 && s[0] == '/' then LStrip(s[1..]) else s
  }

  /** What `lstrip` removes is slashes only. */
  lemma {:induction false} LStripRemovesSlashes(s: string)
    ensures SlashesIn(s, 0, |s| - |LStrip(s)|)
    decreases |s|
  {
    if |s| > 0 && s[0] == '/' {
      LStripRemovesSlashes(s[1..]);
    }
  }

  /** `s.rstrip("/")`: the prefix of `s` left after its trailing slashes. */
  function RStrip(s: string): (r: string)
    ensures |r| <= |s| && r == s[..|r|]
    ensures r == [] || r[|r| - 1] != '/'
  {
    if |s| > 0 && s[|s| - 1] == '/' then RStrip(s[..|s| - 1]) else s
  }

  /** What `rstrip` removes is slashes only. */
  lemma {:induction false} RStripRemovesSlashes(s: string)
    ensures SlashesIn(s, |RStrip(s)|, |s|)
    decreases |s|
  {
    if |s| > 0 && s[|s| - 1] == '/' {
      RStripRemovesSlashes(s[..|s| - 1]);
    }
  }

  /** `s.strip("/")`: `s` without its leading and its trailing slashes. */
  function Strip(s: string): (r: string)
    ensures r == [] || (r[0] != '/' && r[|r| - 1] != '/')
  {
    var t := LStrip(s);
    var r := RStrip(t);
    assert r == [] || r[0] == t[0];
    r
  }

  /** What `strip("/")` keeps sits in `s` between a run of leading and a run
      of trailing slashes. */
  lemma StripFrames(s: string)
    ensures Frames(s, |s| - |LStrip(s)|, Strip(s))
  {
    LStripRemovesSlashes(s);
    RStripRemovesSlashes(LStrip(s));
    FramesOfParts(s, LStrip(s), Strip(s));
  }

  /** A slash-only prefix cut off `s` leaves `t`; a slash-only suffix cut off
      `t` leaves `r`: then `r` is framed in `s`. */
  lemma FramesOfParts(s: string, t: string, r: string)
    requires |t| <= |s| && t == s[|s| - |t|..] && SlashesIn(s, 0, |s| - |t|)
    requires |r| <= |t| && r == t[..|r|] && SlashesIn(t, |r|, |t|)
    ensures Frames(s, |s| - |t|, r)
  {
    var k := |s| - |t|;
    assert s[k..k + |r|] == r;
    forall i | k + |r| <= i < |s|
      ensures s[i] == '/'
    {
      assert s[i] == t[i - k];
    }
  }

  /** `s` is `r` with `k` slashes in front and nothing but slashes behind. */
  predicate Frames(s: string, k: nat, r: string) {
    && k + |r| <= |s|
    && s[k..k + |r|] == r
    && SlashesIn(s, 0, k)
    && SlashesIn(s, k + |r|, |s|)
  }

  /** Stripping leading slashes from a string that has none changes nothing. */
  lemma LStripNoLeading(s: string)
    requires s == [] || s[0] != '/'
    ensures LStrip(s) == s
  {
  }

  /** Stripping trailing slashes from a string that has none changes nothing. */
  lemma RStripNoTrailing(s: string)
    requires s == [] || s[|s| - 1] != '/'
    ensures RStrip(s) == s
  {
  }

  /** `strip("/")` is idempotent. */
  lemma StripIdempotent(s: string)
    ensures Strip(Strip(s)) == Strip(s)
  {
    var r := Strip(s);
    LStripNoLeading(r);
    RStripNoTrailing(r);
  }

  /** Leading slashes in front of a string are exactly what `lstrip` removes. */
  lemma {:induction false} LStripSlashes(p: string, t: string)
    requires AllSlashes(p)
    requires t == [] || t[0] != '/'
    ensures LStrip(p + t) == t
    decreases |p|
  {
    if p == [] {
      assert p + t == t;
      LStripNoLeading(t);
    } else {
      assert (p + t)[0] == '/';
      assert (p + t)[1..] == p[1..] + t;
      LStripSlashes(p[1..], t);
    }
  }

  /** Trailing slashes behind a string are exactly what `rstrip` removes. */
  lemma {:induction false} RStripSlashes(t: string, q: string)
    requires AllSlashes(q)
    requires t == [] || t[|t| - 1] != '/'
    ensures RStrip(t + q) == t
    decreases |q|
  {
    if q == [] {
      assert t + q == t;
      RStripNoTrailing(t);
    } else {
      var q' := q[..|q| - 1];
      assert (t + q)[|t + q| - 1] == '/';
      assert (t + q)[..|t + q| - 1] == t + q';
      RStripSlashes(t, q');
    }
  }

  /** Slashes put around a string that neither starts nor ends with one are
      exactly what `strip` removes. */
  lemma StripSlashes(lead: string, t: string, trail: string)
    requires AllSlashes(lead) && AllSlashes(trail)
    requires t == [] || (t[0] != '/' && t[|t| - 1] != '/')
    ensures Strip(lead + t + trail) == t
  {
    if t == [] {
      assert lead + t + trail == lead + trail + t;
      LStripSlashes(lead + trail, t);
    } else {
      assert lead + t + trail == lead + (t + trail);
      LStripSlashes(lead, t + trail);
      RStripSlashes(t, trail);
    }
  }

  /** `s.split("/", 1)`: `[s]` when `s` holds no slash, otherwise the part
      before the first slash and the part after it. */
  function SplitOnce(s: string): (parts: seq<string>)
    ensures 1 <= |parts| <= 2
    ensures |parts| == 1 <==> '/' !in s
    ensures |parts| == 1 ==> parts[0] == s
    ensures |parts| == 2 ==> parts[0] + "/" + parts[1] == s && '/' !in parts[0]
  {
    if |s| == 0 then [s]
    else if s[0] == '/' then ["", s[1..]]
    else
      var rest := SplitOnce(s[1..]);
      if |rest| == 1 then [s]
      else
        assert s == [s[0]] + s[1..];
        [[s[0]] + rest[0], rest[1]]
  }

  /** The two parts `split("/", 1)` returns are the only way of writing `s`
      as a slash-free head, a slash, and a tail. */
  lemma {:induction false} SplitOnceJoin(head: string, tail: string)
    requires '/' !in head
    ensures SplitOnce(head + "/" + tail) == [head, tail]
  {
    var s := head + "/" + tail;
    if head == [] {
      assert s == "/" + tail;
    } else {
      assert s[0] == head[0] && s[1..] == head[1..] + "/" + tail;
      SplitOnceJoin(head[1..], tail);
      assert [s[0]] + head[1..] == head;
    }
  }
}
