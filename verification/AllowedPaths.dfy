/** `checkAllowedPaths` of `scripts/agent-lease.ts`: which candidate paths a lease's allowlist covers. */
module AllowedPaths {

  function StripTrailingSlashes(s: string): string {
    if s != "" && s[|s| - 1] == '/' then StripTrailingSlashes(s[..|s| - 1]) else s
  }

  function BackslashesToSlashes(s: string): string {
    seq(|s|, i requires 0 <= i < |s| => if s[i] == '\\' then '/' else s[i])
  }

  function StripLeadingDot(s: string): string {
    if "./" <= s then s[2..] else s
  }

  function Normalize(candidate: string): string {
    StripTrailingSlashes(StripLeadingDot(BackslashesToSlashes(candidate)))
  }

  /** `split('/')`. */
  function Segments(s: string): (segments: seq<string>)
    ensures |segments| > 0
  {
    if s == "" then [""] else Prepend(s[0], Segments(s[1..]))
  }

  function Prepend(c: char, segments: seq<string>): (longer: seq<string>)
    requires |segments| > 0
    ensures |longer| > 0
  {
    if c == '/' then [""] + segments else [[c] + segments[0]] + segments[1..]
  }

  function Join(segments: seq<string>): string
    requires |segments| > 0
  {
    if |segments| == 1 then segments[0] else segments[0] + "/" + Join(segments[1..])
  }

  predicate Relative(path: string) {
    path != "" && path[0] != '/'
  }

  /** What the allowlist promises: a relative path without a parent segment that some entry, read as whole
      segments, contains. `.` contains everything. */
  predicate Accepted(allowed: seq<string>, candidate: string) {
    var path := Normalize(candidate);
    Relative(path) && ".." !in Segments(path)
    && exists entry <- allowed :: Contains(StripTrailingSlashes(entry), path)
  }

  predicate Contains(entry: string, path: string) {
    entry == "." || Segments(entry) <= Segments(path)
  }

  function Violations(allowed: seq<string>, candidates: seq<string>): seq<string> {
    if candidates == [] then []
    else
      var last := candidates[|candidates| - 1];
      Violations(allowed, candidates[..|candidates| - 1]) + if Accepted(allowed, last) then [] else [last]
  }

  /** The prefix test of the source, entry by entry, and its answer. */
  method Covered(allowed: seq<string>, path: string) returns (covered: bool)
    ensures covered <==> exists entry <- allowed :: Contains(StripTrailingSlashes(entry), path)
  {
    covered := false;
    for i := 0 to |allowed|
      invariant !covered
      invariant forall j | 0 <= j < i :: !Contains(StripTrailingSlashes(allowed[j]), path)
    {
      var entry := StripTrailingSlashes(allowed[i]);
      PrefixIsContainment(entry, path);
      if entry == "." || entry == path || entry + "/" <= path {
        assert allowed[i] in allowed && Contains(entry, path);
        return true;
      }
    }
  }

  method CheckAllowedPaths(allowed: seq<string>, candidates: seq<string>) returns (violations: seq<string>)
    ensures violations == Violations(allowed, candidates)
  {
    violations := [];
    for i := 0 to |candidates|
      invariant violations == Violations(allowed, candidates[..i])
    {
      var candidate := candidates[i];
      assert candidates[..i + 1][..i] == candidates[..i];
      var normalized := Normalize(candidate);
      if normalized == "" || ".." in Segments(normalized) || normalized[0] == '/' {
        violations := violations + [candidate];
        continue;
      }
      var covered := Covered(allowed, normalized);
      if !covered {
        violations := violations + [candidate];
      }
    }
    assert candidates[..|candidates|] == candidates;
  }

  lemma PrependConcat(c: char, a: seq<string>, b: seq<string>)
    requires |a| > 0
    ensures Prepend(c, a + b) == Prepend(c, a) + b
  {
    assert (a + b)[1..] == a[1..] + b;
  }

  lemma {:induction false} SegmentsOfConcat(a: string, b: string)
    ensures Segments(a + "/" + b) == Segments(a) + Segments(b)
  {
    var s := a + "/" + b;
    if a == "" {
      assert s[1..] == b;
    } else {
      SegmentsOfConcat(a[1..], b);
      assert s[1..] == a[1..] + "/" + b;
      PrependConcat(a[0], Segments(a[1..]), Segments(b));
    }
  }

  lemma JoinUnfolds(segments: seq<string>)
    requires |segments| > 1
    ensures Join(segments) == segments[0] + "/" + Join(segments[1..])
  {
  }

  lemma JoinMore(c: char, segments: seq<string>, longer: seq<string>)
    requires |segments| > 1 && longer == [[c] + segments[0]] + segments[1..]
    ensures Join(longer) == [c] + Join(segments)
  {
    JoinUnfolds(segments);
    JoinUnfolds(longer);
    assert longer[1..] == segments[1..];
    ConsConcat(c, segments[0], "/" + Join(segments[1..]));
  }

  lemma ConsConcat(c: char, a: string, b: string)
    ensures ([c] + a) + b == [c] + (a + b)
  {
  }

  lemma JoinEmptyFirst(segments: seq<string>)
    requires |segments| > 0
    ensures Join([""] + segments) == "/" + Join(segments)
  {
    JoinUnfolds([""] + segments);
    assert ([""] + segments)[1..] == segments;
    assert "" + "/" == "/";
  }

  lemma JoinOne(segment: string)
    ensures Join([segment]) == segment
  {
  }

  lemma JoinPrepend(c: char, segments: seq<string>)
    requires |segments| > 0
    ensures Join(Prepend(c, segments)) == [c] + Join(segments)
  {
    if c == '/' {
      JoinEmptyFirst(segments);
    } else if |segments| == 1 {
      JoinOne(segments[0]);
      JoinOne([c] + segments[0]);
      assert segments == [segments[0]] && Prepend(c, segments) == [[c] + segments[0]];
    } else {
      JoinMore(c, segments, Prepend(c, segments));
    }
  }

  lemma {:induction false} JoinSegments(s: string)
    ensures Join(Segments(s)) == s
  {
    if s != "" {
      JoinSegments(s[1..]);
      JoinPrepend(s[0], Segments(s[1..]));
      assert s == [s[0]] + s[1..];
    }
  }

  lemma {:induction false} JoinOfConcat(a: seq<string>, b: seq<string>)
    requires |a| > 0 && |b| > 0
    ensures Join(a + b) == Join(a) + "/" + Join(b)
  {
    if |a| == 1 {
      assert (a + b)[1..] == b;
    } else {
      JoinOfConcat(a[1..], b);
      assert (a + b)[1..] == a[1..] + b;
    }
  }

  lemma PrefixContains(entry: string, path: string)
    requires entry + "/" <= path
    ensures Segments(entry) <= Segments(path)
  {
    var rest := path[|entry| + 1..];
    assert path == entry + "/" + rest;
    SegmentsOfConcat(entry, rest);
  }

  lemma ContainsPrefix(entry: string, path: string)
    requires Segments(entry) <= Segments(path)
    ensures entry == path || entry + "/" <= path
  {
    var e, p := Segments(entry), Segments(path);
    JoinSegments(entry);
    JoinSegments(path);
    if |e| == |p| {
      assert e == p;
    } else {
      var rest := p[|e|..];
      assert p == e + rest;
      JoinOfConcat(e, rest);
      assert path == (entry + "/") + Join(rest);
    }
  }

  /** The source's textual prefix test is exactly containment of whole segments, for every entry and path. */
  lemma PrefixIsContainment(entry: string, path: string)
    ensures entry == path || entry + "/" <= path <==> Segments(entry) <= Segments(path)
  {
    if entry + "/" <= path { PrefixContains(entry, path); }
    if Segments(entry) <= Segments(path) { ContainsPrefix(entry, path); }
  }

  lemma MoreEntriesAcceptMore(allowed: seq<string>, more: seq<string>, candidate: string)
    requires Accepted(allowed, candidate)
    ensures Accepted(allowed + more, candidate) && Accepted(more + allowed, candidate)
  {
    var path := Normalize(candidate);
    var entry :| entry in allowed && Contains(StripTrailingSlashes(entry), path);
    assert entry in allowed + more && entry in more + allowed;
  }

  /** Adding entries never adds violations. */
  lemma {:induction false} MoreEntriesViolateLess(allowed: seq<string>, more: seq<string>, candidates: seq<string>)
    ensures forall v <- Violations(allowed + more, candidates) :: v in Violations(allowed, candidates)
  {
    if candidates != [] {
      var last := candidates[|candidates| - 1];
      MoreEntriesViolateLess(allowed, more, candidates[..|candidates| - 1]);
      if Accepted(allowed, last) { MoreEntriesAcceptMore(allowed, more, last); }
    }
  }

  /** An empty allowlist denies everything: it is never read as "unrestricted". */
  lemma {:induction false} EmptyDeniesAll(candidates: seq<string>)
    ensures Violations([], candidates) == candidates
  {
    if candidates != [] {
      EmptyDeniesAll(candidates[..|candidates| - 1]);
      assert candidates == candidates[..|candidates| - 1] + [candidates[|candidates| - 1]];
    }
  }

  lemma {:induction false} TrailingSlashesKeepParents(s: string)
    ensures ".." in Segments(s) ==> ".." in Segments(StripTrailingSlashes(s))
  {
    if s != "" && s[|s| - 1] == '/' {
      var t := s[..|s| - 1];
      TrailingSlashesKeepParents(t);
      SegmentsOfConcat(t, "");
      assert s == t + "/" + "";
    }
  }

  /** A parent segment is a violation wherever it stands and however the slashes are written: normalising
      can not hide it, whatever the allowlist. */
  lemma ParentAlwaysViolates(allowed: seq<string>, candidate: string)
    requires ".." in Segments(BackslashesToSlashes(candidate))
    ensures !Accepted(allowed, candidate)
  {
    var s := BackslashesToSlashes(candidate);
    if "./" <= s {
      SegmentsOfConcat(".", s[2..]);
      assert s == "." + "/" + s[2..];
      assert Segments(".") == ["."] by { assert "."[1..] == "" && ['.'] + "" == "." && [""][1..] == []; }
    }
    TrailingSlashesKeepParents(StripLeadingDot(s));
  }
}
