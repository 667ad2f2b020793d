/**
 * Path resolution: the merge of section 5.2.3 of RFC 3986 as net/url's
 * resolvePath performs it, followed by remove_dot_segments as section 5.2.4
 * of RFC 3986 specifies it, computed on the '/'-separated segments of the
 * path. resolvePath departs from section 5.2.4 in one case, which this
 * module does not follow: an empty segment right after a ".." that leaves
 * nothing behind is dropped there ("/..//a" becomes "/a", here "//a").
 */
module Paths {
  import opened Strs

  predicate SlashFree(segs: seq<string>) {
    forall k :: 0 <= k < |segs| ==> '/' !in segs[k]
  }

  predicate DotFree(segs: seq<string>) {
    forall k :: 0 <= k < |segs| ==> segs[k] != "." && segs[k] != ".."
  }

  /** The segments of `s` between its '/' separators (strings.Split(s, "/")). */
  function Split(s: string): (segs: seq<string>)
    ensures |segs| >= 1 && SlashFree(segs)
    decreases |s|
  {
    if s == [] then [""]
    else if s[0] == '/' then [""] + Split(s[1..])
    else
      var t := Split(s[1..]);
      [[s[0]] + t[0]] + t[1..]
  }

  /** strings.Join(segs, "/") */
  function Join(segs: seq<string>): string
    decreases |segs|
  {
    if segs == [] then ""
    else if |segs| == 1 then segs[0]
    else segs[0] + "/" + Join(segs[1..])
  }

  /**
   * remove_dot_segments on segments: "." is dropped, ".." drops the last
   * segment kept so far (if any), and a final "." or ".." leaves a trailing
   * empty segment, so that "/a/b/.." becomes "/a/".
   */
  function RemoveDots(segs: seq<string>, kept: seq<string>): (out: seq<string>)
    decreases |segs|
  {
    if segs == [] then kept
    else
      var s := segs[0];
      var kept' :=
        if s == ".." then (if kept == [] then [] else kept[..|kept| - 1])
        else if s == "." then kept
        else kept + [s];
      var kept'' := if |segs| == 1 && (s == "." || s == "..") then kept' + [""] else kept';
      RemoveDots(segs[1..], kept'')
  }

  /** The path without one leading '/'. */
  function TrimSlash(p: string): (r: string)
    ensures p != [] && p[0] == '/' ==> p == "/" + r
    ensures (p == [] || p[0] != '/') ==> r == p
  {
    if p != [] && p[0] == '/' then p[1..] else p
  }

  /** The segments of the dot-free form of a non-empty path. */
  function NormalSegments(full: string): seq<string> {
    RemoveDots(Split(TrimSlash(full)), [])
  }

  /** The dot-free, '/'-rooted form of a path; the empty path stays empty. */
  function Normalize(full: string): (r: string)
    ensures full == "" <==> r == ""
    ensures r != "" ==> r[0] == '/' && DotFree(Split(r[1..]))
  {
    if full == "" then ""
    else
      NormalSegmentsShape(full);
      JoinDotFree(NormalSegments(full));
      assert ("/" + Join(NormalSegments(full)))[1..] == Join(NormalSegments(full));
      "/" + Join(NormalSegments(full))
  }

  /**
   * The merge of section 5.2.3 of RFC 3986 as net/url performs it: an empty
   * reference keeps the base path, a relative one replaces the base's last
   * segment, and one starting with '/' replaces the whole path.
   */
  function Merge(base: string, ref: string): (full: string)
    ensures ref != "" && ref[0] == '/' ==> full == ref
    ensures ref == "" ==> full == base
    ensures HasSuffix(full, ref)
    ensures ref != "" && ref[0] != '/' ==>
      var dir := full[..|full| - |ref|];
      dir <= base && (dir == "" || dir[|dir| - 1] == '/') && '/' !in base[|dir|..]
  {
    if ref == "" then base
    else if ref[0] != '/' then
      var i := LastIndexOf(base, '/');
      assert (base[..i + 1] + ref)[..i + 1] == base[..i + 1];
      base[..i + 1] + ref
    else ref
  }

  /** net/url's resolvePath. */
  function ResolvePath(base: string, ref: string): string {
    Normalize(Merge(base, ref))
  }

  /** The trailing-slash step of cleanUpURL: append '/' only when it is missing. */
  function EnsureTrailingSlash(p: string): (r: string)
    ensures HasSuffix(r, "/")
    ensures p <= r && |r| <= |p| + 1
    ensures HasSuffix(p, "/") ==> r == p
  {
    if HasSuffix(p, "/") then p else p + "/"
  }

  // ---------------------------------------------------------------------
  // Split and Join are inverse on segments without '/'

  lemma {:induction false} SplitNoSlash(a: string)
    requires '/' !in a
    ensures Split(a) == [a]
    decreases |a|
  {
    if a != [] {
      SplitNoSlash(a[1..]);
      assert [a[0]] + a[1..] == a;
    }
  }

  lemma {:induction false} SplitCons(a: string, t: string)
    requires '/' !in a
    ensures Split(a + "/" + t) == [a] + Split(t)
    decreases |a|
  {
    var s := a + "/" + t;
    if a == [] {
      assert s[0] == '/' && s[1..] == t;
    } else {
      assert s[0] == a[0] && s[1..] == a[1..] + "/" + t;
      SplitCons(a[1..], t);
      assert [a[0]] + a[1..] == a;
    }
  }

  lemma {:induction false} SplitJoin(segs: seq<string>)
    requires |segs| >= 1 && SlashFree(segs)
    ensures Split(Join(segs)) == segs
    decreases |segs|
  {
    if |segs| == 1 {
      SplitNoSlash(segs[0]);
    } else {
      SplitJoin(segs[1..]);
      SplitCons(segs[0], Join(segs[1..]));
      assert [segs[0]] + segs[1..] == segs;
    }
  }

  /** Joining dot-free segments without '/' and splitting again gives no dot segment. */
  lemma JoinDotFree(segs: seq<string>)
    requires SlashFree(segs) && DotFree(segs)
    ensures DotFree(Split(Join(segs)))
  {
    if segs != [] {
      SplitJoin(segs);
    }
  }

  lemma {:induction false} JoinSnocEmpty(segs: seq<string>)
    requires |segs| >= 1
    ensures Join(segs + [""]) == Join(segs) + "/"
    decreases |segs|
  {
    if |segs| == 1 {
      assert segs + [""] == [segs[0], ""];
    } else {
      assert (segs + [""])[1..] == segs[1..] + [""];
      JoinSnocEmpty(segs[1..]);
    }
  }

  // ---------------------------------------------------------------------
  // What remove_dot_segments produces

  lemma {:induction false} RemoveDotsShape(segs: seq<string>, kept: seq<string>)
    requires SlashFree(segs) && SlashFree(kept) && DotFree(kept)
    ensures SlashFree(RemoveDots(segs, kept)) && DotFree(RemoveDots(segs, kept))
    decreases |segs|
  {
    if segs != [] {
      var s := segs[0];
      var kept' :=
        if s == ".." then (if kept == [] then [] else kept[..|kept| - 1])
        else if s == "." then kept
        else kept + [s];
      var kept'' := if |segs| == 1 && (s == "." || s == "..") then kept' + [""] else kept';
      assert SlashFree(kept'') && DotFree(kept'');
      RemoveDotsShape(segs[1..], kept'');
    }
  }

  /** A path that is already dot-free passes remove_dot_segments unchanged. */
  lemma {:induction false} RemoveDotsOfDotFree(segs: seq<string>, kept: seq<string>)
    requires DotFree(segs)
    ensures RemoveDots(segs, kept) == kept + segs
    decreases |segs|
  {
    if segs != [] {
      RemoveDotsOfDotFree(segs[1..], kept + [segs[0]]);
      assert kept + [segs[0]] + segs[1..] == kept + segs;
    }
  }

  lemma NormalSegmentsShape(full: string)
    ensures SlashFree(NormalSegments(full)) && DotFree(NormalSegments(full))
  {
    RemoveDotsShape(Split(TrimSlash(full)), []);
  }

  /** "/" followed by dot-free segments is a fixed point of Normalize. */
  lemma {:induction false} NormalizeRooted(segs: seq<string>)
    requires SlashFree(segs) && DotFree(segs)
    ensures Normalize("/" + Join(segs)) == "/" + Join(segs)
  {
    var p := "/" + Join(segs);
    assert TrimSlash(p) == Join(segs) by { assert p[0] == '/' && p[1..] == Join(segs); }
    if segs == [] {
      assert Split("") == [""];
      assert RemoveDots([""], []) == [""];
    } else {
      SplitJoin(segs);
      RemoveDotsOfDotFree(segs, []);
      assert [] + segs == segs;
    }
  }

  /** remove_dot_segments is idempotent. */
  lemma NormalizeIdempotent(full: string)
    ensures Normalize(Normalize(full)) == Normalize(full)
  {
    if full != "" {
      NormalSegmentsShape(full);
      NormalizeRooted(NormalSegments(full));
    }
  }

  /**
   * Appending the trailing slash to a normalized path keeps it normalized:
   * the step that cleanUpURL takes after resolution cannot reintroduce dot
   * segments.
   */
  lemma NormalizeAfterSlash(full: string)
    ensures Normalize(EnsureTrailingSlash(Normalize(full))) == EnsureTrailingSlash(Normalize(full))
  {
    var q := Normalize(full);
    if q == "" {
      assert EnsureTrailingSlash(q) == "/";
      assert "/" == "/" + Join([]);
      NormalizeRooted([]);
    } else {
      var segs := NormalSegments(full);
      NormalSegmentsShape(full);
      if HasSuffix(q, "/") {
        NormalizeRooted(segs);
      } else {
        SlashAfterSegments(segs);
      }
    }
  }

  /** "/" followed by dot-free segments and a final '/' is a fixed point of Normalize. */
  lemma SlashAfterSegments(segs: seq<string>)
    requires SlashFree(segs) && DotFree(segs) && !HasSuffix("/" + Join(segs), "/")
    ensures Normalize(EnsureTrailingSlash("/" + Join(segs))) == EnsureTrailingSlash("/" + Join(segs))
  {
    assert segs != [];
    JoinSnocEmpty(segs);
    assert EnsureTrailingSlash("/" + Join(segs)) == "/" + Join(segs + [""]);
    assert SlashFree(segs + [""]) && DotFree(segs + [""]);
    NormalizeRooted(segs + [""]);
  }
}
