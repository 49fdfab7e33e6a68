/** Dot-segment removal and reference resolution for redirects
    (ruvia-http/src/client/http_client_redirect.cpp), against the segment-stack meaning of
    section 5.2.4 and the transformation of sections 5.2.2 and 5.2.3 of RFC 3986. */
module DotSegments {
  import opened Wrappers

  // ----- paths as segments

  predicate Absolute(path: string) {
    path == "" || path[0] == '/'
  }

  /** The first slash at or after `from`, or the end. */
  function SlashFrom(path: string, from: nat): (i: nat)
    requires from <= |path|
    ensures from <= i <= |path| && (i < |path| ==> path[i] == '/')
    ensures forall j :: from <= j < i ==> path[j] != '/'
    decreases |path| - from
  {
    if from == |path| || path[from] == '/' then from else SlashFrom(path, from + 1)
  }

  /** "/a//b" is the segments "a", "", "b". */
  function Split(path: string): (segments: seq<string>)
    requires Absolute(path)
    ensures path != "" ==> segments != []
    decreases |path|
  {
    if path == "" then []
    else
      var i := SlashFrom(path, 1);
      [path[1..i]] + Split(path[i..])
  }

  function Join(segments: seq<string>): (path: string)
    ensures Absolute(path) && (segments != [] ==> path != "")
    decreases |segments|
  {
    if segments == [] then "" else "/" + segments[0] + Join(segments[1..])
  }

  predicate NoSlash(segment: string) {
    forall k :: 0 <= k < |segment| ==> segment[k] != '/'
  }

  predicate Segments(segments: seq<string>) {
    forall k :: 0 <= k < |segments| ==> NoSlash(segments[k])
  }

  predicate NoDots(segments: seq<string>) {
    forall k :: 0 <= k < |segments| ==> segments[k] != "." && segments[k] != ".."
  }

  function Pop(stack: seq<string>): seq<string> {
    if stack == [] then [] else stack[..|stack| - 1]
  }

  /** The meaning of dot segments on a stack: "." stays, ".." goes up, and at the end both leave an empty segment. */
  function Resolve(stack: seq<string>, segments: seq<string>): (r: seq<string>)
    ensures segments != [] ==> r != []
    decreases |segments|
  {
    if segments == [] then stack
    else
      var rest := segments[1..];
      if segments[0] == "." then if rest == [] then stack + [""] else Resolve(stack, rest)
      else if segments[0] == ".." then if rest == [] then Pop(stack) + [""] else Resolve(Pop(stack), rest)
      else Resolve(stack + [segments[0]], rest)
  }

  /** remove_dot_segments of an absolute path. */
  function RemoveDots(path: string): string
    requires Absolute(path)
  {
    if path == "" then "/" else Join(Resolve([], Split(path)))
  }

  // ----- splitting and joining are inverse

  lemma {:induction false} SplitHasNoSlash(path: string)
    requires Absolute(path)
    ensures Segments(Split(path))
    decreases |path|
  {
    if path != "" {
      SplitHasNoSlash(path[SlashFrom(path, 1)..]);
    }
  }

  lemma {:induction false} JoinSplit(path: string)
    requires Absolute(path)
    ensures Join(Split(path)) == path
    decreases |path|
  {
    if path != "" {
      var i := SlashFrom(path, 1);
      JoinSplit(path[i..]);
      assert path == "/" + path[1..i] + path[i..];
    }
  }

  lemma SplitStep(segment: string, rest: string)
    requires NoSlash(segment) && Absolute(rest)
    ensures Split("/" + segment + rest) == [segment] + Split(rest)
  {
    var path := "/" + segment + rest;
    var i := SlashFrom(path, 1);
    assert forall k :: 1 <= k < 1 + |segment| ==> path[k] == segment[k - 1];
    assert rest != "" ==> path[1 + |segment|] == rest[0];
    assert i == 1 + |segment| && path[1..i] == segment && path[i..] == rest;
  }

  lemma {:induction false} SplitJoin(segments: seq<string>)
    requires Segments(segments)
    ensures Split(Join(segments)) == segments
    decreases |segments|
  {
    if segments != [] {
      SplitJoin(segments[1..]);
      SplitStep(segments[0], Join(segments[1..]));
    }
  }

  lemma {:induction false} JoinAppends(stack: seq<string>, segment: string)
    ensures Join(stack + [segment]) == Join(stack) + "/" + segment
    decreases |stack|
  {
    if stack == [] {
      assert [] + [segment] == [segment];
    } else {
      JoinAppends(stack[1..], segment);
      assert (stack + [segment])[1..] == stack[1..] + [segment];
    }
  }

  // ----- what resolving does

  lemma {:induction false} ResolveRemovesDots(stack: seq<string>, segments: seq<string>)
    requires Segments(stack) && NoDots(stack) && Segments(segments)
    ensures Segments(Resolve(stack, segments)) && NoDots(Resolve(stack, segments))
    decreases |segments|
  {
    if segments != [] {
      var rest := segments[1..];
      if segments[0] == "." {
        ResolveRemovesDots(stack, rest);
      } else if segments[0] == ".." {
        ResolveRemovesDots(Pop(stack), rest);
      } else {
        ResolveRemovesDots(stack + [segments[0]], rest);
      }
    }
  }

  lemma {:induction false} ResolveKeeps(stack: seq<string>, segments: seq<string>)
    requires NoDots(segments)
    ensures Resolve(stack, segments) == stack + segments
    decreases |segments|
  {
    if segments != [] {
      ResolveKeeps(stack + [segments[0]], segments[1..]);
      assert (stack + [segments[0]]) + segments[1..] == stack + segments;
    }
  }

  /** The result is absolute and has no dot segment, and removing dot segments again changes nothing. */
  lemma DotsAreGone(path: string)
    requires Absolute(path)
    ensures var result := RemoveDots(path);
            result != "" && result[0] == '/' && NoDots(Split(result)) && RemoveDots(result) == result
  {
    if path != "" {
      var segments := Resolve([], Split(path));
      SplitHasNoSlash(path);
      ResolveRemovesDots([], Split(path));
      SplitJoin(segments);
      ResolveKeeps([], segments);
      assert [] + segments == segments;
    } else {
      SplitJoin([""]);
      ResolveKeeps([], [""]);
      assert Join([""]) == "/" + "" + Join([]) == "/";
      assert [] + [""] == [""];
    }
  }

  /** A path is left alone iff it has no dot segment. */
  lemma UnchangedIffNoDots(path: string)
    requires Absolute(path) && path != ""
    ensures RemoveDots(path) == path <==> NoDots(Split(path))
  {
    JoinSplit(path);
    DotsAreGone(path);
    if NoDots(Split(path)) {
      ResolveKeeps([], Split(path));
      assert [] + Split(path) == Split(path);
    }
  }

  // ----- what each dot segment does to a path

  /** What is left where a dot segment ended the path. */
  function AtEnd(a: seq<string>, b: seq<string>): (r: seq<string>)
    ensures r != []
  {
    if b == [] then a + [""] else a + b
  }

  lemma {:induction false} ResolveUp(stack: seq<string>, a: seq<string>, x: string, b: seq<string>)
    requires x != "." && x != ".."
    ensures Resolve(stack, a + [x, ".."] + b) == Resolve(stack, AtEnd(a, b))
    decreases |a|
  {
    var s, t := a + [x, ".."] + b, AtEnd(a, b);
    if a == [] {
      assert s[0] == x && s[1..] == [".."] + b && ([".."] + b)[1..] == b;
      assert Pop(stack + [x]) == stack;
      assert b == [] ==> t == [""] && [""][1..] == [];
      assert b != [] ==> t == b;
    } else {
      assert s[0] == a[0] == t[0] && s[1..] == a[1..] + [x, ".."] + b && t[1..] == AtEnd(a[1..], b);
      ResolveUp(stack, a[1..], x, b);
      ResolveUp(Pop(stack), a[1..], x, b);
      ResolveUp(stack + [a[0]], a[1..], x, b);
    }
  }

  lemma {:induction false} ResolveHere(stack: seq<string>, a: seq<string>, b: seq<string>)
    ensures Resolve(stack, a + ["."] + b) == Resolve(stack, AtEnd(a, b))
    decreases |a|
  {
    var s, t := a + ["."] + b, AtEnd(a, b);
    if a == [] {
      assert s[0] == "." && s[1..] == b;
      assert b == [] ==> t == [""] && [""][1..] == [];
      assert b != [] ==> t == b;
    } else {
      assert s[0] == a[0] == t[0] && s[1..] == a[1..] + ["."] + b && t[1..] == AtEnd(a[1..], b);
      ResolveHere(stack, a[1..], b);
      ResolveHere(Pop(stack), a[1..], b);
      ResolveHere(stack + [a[0]], a[1..], b);
    }
  }

  lemma RemoveDotsOfJoin(segments: seq<string>)
    requires Segments(segments) && segments != []
    ensures RemoveDots(Join(segments)) == Join(Resolve([], segments))
  {
    SplitJoin(segments);
  }

  /** ".." takes the segment before it away; at the end of the path it leaves an empty one in its place. */
  lemma DoubleDotGoesUp(a: seq<string>, x: string, b: seq<string>)
    requires Segments(a) && NoSlash(x) && Segments(b) && x != "." && x != ".."
    ensures RemoveDots(Join(a + [x, ".."] + b)) == RemoveDots(Join(if b == [] then a + [""] else a + b))
  {
    hide RemoveDots, Join, Resolve;
    RemoveDotsOfJoin(a + [x, ".."] + b);
    RemoveDotsOfJoin(AtEnd(a, b));
    ResolveUp([], a, x, b);
  }

  /** At the front of a path there is nothing to take away. */
  lemma LeadingDoubleDotIsDropped(b: seq<string>)
    requires Segments(b)
    ensures RemoveDots(Join([".."] + b)) == RemoveDots(Join(if b == [] then [""] else b))
  {
    hide RemoveDots, Join;
    RemoveDotsOfJoin([".."] + b);
    RemoveDotsOfJoin(AtEnd([], b));
    assert ([".."] + b)[1..] == b && Pop([]) == [];
    assert AtEnd([], b) == if b == [] then [""] else b;
    assert [""][1..] == [];
  }

  /** "." changes nothing, and leaves an empty segment at the end of the path. */
  lemma DotStays(a: seq<string>, b: seq<string>)
    requires Segments(a) && Segments(b)
    ensures RemoveDots(Join(a + ["."] + b)) == RemoveDots(Join(if b == [] then a + [""] else a + b))
  {
    hide RemoveDots, Join, Resolve;
    RemoveDotsOfJoin(a + ["."] + b);
    RemoveDotsOfJoin(AtEnd(a, b));
    ResolveHere([], a, b);
  }

  // ----- the fast path

  /** path.find("/.") */
  ghost predicate HasSlashDot(path: string) {
    exists k: nat :: SlashDotAt(path, k)
  }

  predicate SlashDotAt(path: string, k: nat) {
    k + 1 < |path| && path[k] == '/' && path[k + 1] == '.'
  }

  lemma {:induction false} NoSlashDotNoDots(path: string)
    requires Absolute(path) && !HasSlashDot(path)
    ensures NoDots(Split(path))
    decreases |path|
  {
    if path != "" {
      var i := SlashFrom(path, 1);
      var segment, rest := path[1..i], path[i..];
      assert !SlashDotAt(path, 0) && (segment != "" ==> path[1] == segment[0]);
      forall k: nat ensures !SlashDotAt(rest, k) {
        assert !SlashDotAt(path, i + k);
      }
      NoSlashDotNoDots(rest);
    }
  }

  method FindSlashDot(path: string) returns (found: bool)
    ensures found == HasSlashDot(path)
  {
    var k := 0;
    found := false;
    while k + 1 < |path|
      invariant k <= |path|
      invariant forall j :: 0 <= j < k ==> !SlashDotAt(path, j)
    {
      if SlashDotAt(path, k) {
        return true;
      }
      k := k + 1;
    }
  }

  // ----- the loop

  /** remove_http_client_last_path_segment */
  method RemoveLastSegment(path: string, ghost stack: seq<string>) returns (r: string)
    requires path == Join(stack) && Segments(stack)
    ensures r == Join(Pop(stack))
  {
    var slash: nat := |path|;
    while slash > 0 && path[slash - 1] != '/'
      invariant slash <= |path| && forall k :: slash <= k < |path| ==> path[k] != '/'
    {
      slash := slash - 1;
    }
    LastSlash(stack);
    if stack != [] {
      var last := stack[|stack| - 1];
      var n := |Join(Pop(stack))|;
      assert path == Join(Pop(stack)) + "/" + last && path[n] == '/';
      assert forall k :: n < k < |path| ==> path[k] == last[k - n - 1];
    }
    r := if slash == 0 then "" else path[..slash - 1];
  }

  lemma LastSlash(stack: seq<string>)
    ensures stack != [] ==> Join(stack) == Join(Pop(stack)) + "/" + stack[|stack| - 1]
  {
    hide Join, Pop, Absolute;
    if stack != [] {
      PopLast(stack);
      JoinAppends(Pop(stack), stack[|stack| - 1]);
    }
  }

  lemma PopLast(stack: seq<string>)
    requires stack != []
    ensures Pop(stack) + [stack[|stack| - 1]] == stack
  {
  }

  /** The loop: `remaining` is what is still to be moved, and `normalized` spells the stack. */
  method RemoveDotsByLoop(path: string) returns (normalized: string)
    requires Absolute(path)
    ensures normalized == Join(Resolve([], Split(path)))
  {
    var remaining := path;
    normalized := "";
    ghost var stack: seq<string> := [];
    while remaining != ""
      invariant Absolute(remaining) && Segments(stack) && normalized == Join(stack)
      invariant Resolve(stack, Split(remaining)) == Resolve([], Split(path))
      decreases |remaining|, if remaining == "/" then 0 else 1
    {
      FirstSegment(remaining);
      DotsApart(remaining);
      OnlySlash();
      if LeadsDot(remaining) {
        remaining := remaining[2..];
      } else if IsDot(remaining) {
        remaining := "/";
      } else if LeadsDots(remaining) {
        remaining := remaining[3..];
        normalized := RemoveLastSegment(normalized, stack);
        stack := Pop(stack);
      } else if IsDots(remaining) {
        remaining := "/";
        normalized := RemoveLastSegment(normalized, stack);
        stack := Pop(stack);
      } else {
        var next := SlashFrom(remaining, 1);
        JoinAppends(stack, remaining[1..next]);
        normalized := normalized + remaining[..next];
        stack := stack + [remaining[1..next]];
        remaining := remaining[next..];
      }
    }
  }

  /** "/./" and "/../" in front, and "/." and "/.." alone. */
  predicate LeadsDot(s: string) {
    |s| >= 3 && s[0] == '/' && s[1] == '.' && s[2] == '/'
  }

  predicate IsDot(s: string) {
    |s| == 2 && s[0] == '/' && s[1] == '.'
  }

  predicate LeadsDots(s: string) {
    |s| >= 4 && s[0] == '/' && s[1] == '.' && s[2] == '.' && s[3] == '/'
  }

  predicate IsDots(s: string) {
    |s| == 3 && s[0] == '/' && s[1] == '.' && s[2] == '.'
  }

  /** One segment comes off the front. */
  lemma FirstSegment(remaining: string)
    requires Absolute(remaining) && remaining != ""
    ensures var i := SlashFrom(remaining, 1);
            && NoSlash(remaining[1..i]) && remaining[..i] == "/" + remaining[1..i]
            && Split(remaining) == [remaining[1..i]] + Split(remaining[i..])
  {
  }

  lemma OnlySlash()
    ensures Split("/") == [""]
  {
    SplitStep("", "");
    assert "/" + "" + "" == "/";
  }

  /** What the branches of the loop tell apart is the first segment, and whether it is the last. */
  lemma DotsApart(remaining: string)
    requires Absolute(remaining) && remaining != ""
    ensures var i := SlashFrom(remaining, 1);
            && (LeadsDot(remaining) <==> remaining[1..i] == "." && i < |remaining|)
            && (IsDot(remaining) <==> remaining[1..i] == "." && i == |remaining|)
            && (LeadsDots(remaining) <==> remaining[1..i] == ".." && i < |remaining|)
            && (IsDots(remaining) <==> remaining[1..i] == ".." && i == |remaining|)
  {
    hide Split;
    var i := SlashFrom(remaining, 1);
    DotStrings(remaining[1..i]);
  }

  lemma DotStrings(s: string)
    ensures s == "." <==> |s| == 1 && s[0] == '.'
    ensures s == ".." <==> |s| == 2 && s[0] == '.' && s[1] == '.'
  {
  }

  /** normalize_http_client_absolute_path: the fast path and the loop have one meaning. */
  method Normalize(path: string) returns (normalized: string)
    requires Absolute(path)
    ensures normalized == RemoveDots(path)
  {
    if path != "" {
      var dots := FindSlashDot(path);
      if !dots {
        NoSlashDotNoDots(path);
        UnchangedIffNoDots(path);
        return path;
      }
    }
    normalized := RemoveDotsByLoop(path);
    if normalized == "" {
      normalized := "/";
    }
  }

  // ----- reference resolution

  datatype Reference = Reference(path: string, query: Option<string>)

  /** The text before and after the first question mark. */
  function Parts(text: string): (r: Reference)
    ensures forall k :: 0 <= k < |r.path| ==> r.path[k] != '?'
    decreases |text|
  {
    if text == "" then Reference("", None)
    else if text[0] == '?' then Reference("", Some(text[1..]))
    else
      var rest := Parts(text[1..]);
      Reference([text[0]] + rest.path, rest.query)
  }

  /** Section 5.3 of RFC 3986. */
  function Recompose(r: Reference): string {
    r.path + if r.query.Some? then "?" + r.query.value else ""
  }

  lemma {:induction false} RecomposeParts(text: string)
    ensures Recompose(Parts(text)) == text
  {
    if text != "" && text[0] != '?' {
      RecomposeParts(text[1..]);
    }
  }

  lemma {:induction false} PartsRecompose(r: Reference)
    requires forall k :: 0 <= k < |r.path| ==> r.path[k] != '?'
    ensures Parts(Recompose(r)) == r
    decreases |r.path|
  {
    if r.path != "" {
      PartsRecompose(Reference(r.path[1..], r.query));
      assert Recompose(r)[1..] == Recompose(Reference(r.path[1..], r.query));
    } else if r.query.Some? {
      assert Recompose(r) == "?" + r.query.value;
    }
  }

  /** Section 5.2.3: the reference replaces the last segment of the base path. */
  function Merge(base: string, path: string): (r: string)
    requires Absolute(base)
    ensures r != "" && Absolute(r)
  {
    Join(Pop(Split(base))) + "/" + path
  }

  /** Section 5.2.2, for a reference whose scheme is the base's. */
  function Target(hasAuthority: bool, reference: Reference, base: Reference): Reference
    requires Absolute(base.path) && (hasAuthority ==> Absolute(reference.path))
  {
    if hasAuthority then Reference(RemoveDots(reference.path), reference.query)
    else if reference.path == "" then
      Reference(base.path, if reference.query.Some? then reference.query else base.query)
    else if reference.path[0] == '/' then Reference(RemoveDots(reference.path), reference.query)
    else Reference(RemoveDots(Merge(base.path, reference.path)), reference.query)
  }

  /** Whatever the reference, its dot segments are resolved, and an empty one changes nothing. */
  lemma TargetIsClean(hasAuthority: bool, reference: Reference, base: Reference)
    requires Absolute(base.path) && base.path != "" && (hasAuthority ==> Absolute(reference.path))
    ensures var target := Target(hasAuthority, reference, base);
            && target.path != "" && target.path[0] == '/'
            && (hasAuthority || reference.path != "" ==> NoDots(Split(target.path)))
            && (!hasAuthority && reference == Reference("", None) ==> target == base)
  {
    if hasAuthority || (reference.path != "" && reference.path[0] == '/') {
      DotsAreGone(reference.path);
    } else if reference.path != "" {
      DotsAreGone(Merge(base.path, reference.path));
    }
  }

  /** Which query a target has: the reference's own, unless the reference is empty. */
  lemma TargetQuery(hasAuthority: bool, reference: Reference, base: Reference)
    requires Absolute(base.path) && (hasAuthority ==> Absolute(reference.path))
    ensures Target(hasAuthority, reference, base).query ==
            if !hasAuthority && reference == Reference("", None) then base.query else reference.query
  {
  }

  /** Which path: the reference's own if it has an authority or starts with a slash, the base's if it is empty, and
      otherwise its segments in the place of the base's last one; with dot segments resolved, except for the base's. */
  lemma TargetPath(hasAuthority: bool, reference: Reference, base: Reference)
    requires Absolute(base.path) && (hasAuthority ==> Absolute(reference.path))
    ensures Target(hasAuthority, reference, base).path ==
            if hasAuthority || (reference.path != "" && Absolute(reference.path)) then RemoveDots(reference.path)
            else if reference.path == "" then base.path
            else Join(Resolve([], Pop(Split(base.path)) + Split("/" + reference.path)))
  {
    hide Split, Join, Resolve;
    if !hasAuthority && reference.path != "" && !Absolute(reference.path) {
      MergeIsSplice(base.path, reference.path);
    }
  }

  /** The segments of the reference take the place of the base's last segment. */
  lemma MergeIsSplice(base: string, path: string)
    requires Absolute(base)
    ensures Split(Merge(base, path)) == Pop(Split(base)) + Split("/" + path)
  {
    hide Split, Join;
    var front, back := Pop(Split(base)), Split("/" + path);
    SplitHasNoSlash(base);
    SplitHasNoSlash("/" + path);
    JoinSplit("/" + path);
    JoinConcat(front, back);
    assert Join(front) + "/" + path == Join(front) + ("/" + path);
    SplitJoin(front + back);
  }

  lemma {:induction false} JoinConcat(a: seq<string>, b: seq<string>)
    ensures Join(a + b) == Join(a) + Join(b)
    decreases |a|
  {
    if a == [] {
      assert a + b == b;
    } else {
      JoinConcat(a[1..], b);
      assert (a + b)[1..] == a[1..] + b;
    }
  }

  /** A one-segment reference takes the place of the base's last segment. */
  lemma MergeReplacesLast(base: string, segment: string)
    requires Absolute(base) && NoSlash(segment)
    ensures Split(Merge(base, segment)) == Pop(Split(base)) + [segment]
  {
    hide Join, Split, Absolute;
    SplitHasNoSlash(base);
    JoinAppends(Pop(Split(base)), segment);
    SplitJoin(Pop(Split(base)) + [segment]);
  }

  /** The base path up to and with its last slash. */
  method Directory(base: string) returns (directory: string)
    requires Absolute(base) && base != ""
    ensures directory == Join(Pop(Split(base))) + "/"
  {
    SplitHasNoSlash(base);
    JoinSplit(base);
    LastSlash(Split(base));
    directory := RemoveLastSegment(base, Split(base));
    directory := directory + "/";
  }

  lemma {:induction false} PartsAtMark(text: string, at: nat)
    requires at <= |text| && (forall k :: 0 <= k < at ==> text[k] != '?') && (at < |text| ==> text[at] == '?')
    ensures Parts(text) == Reference(text[..at], if at < |text| then Some(text[at + 1..]) else None)
    decreases at
  {
    if at > 0 {
      PartsAtMark(text[1..], at - 1);
      assert text[..at] == [text[0]] + text[1..][..at - 1];
      assert at < |text| ==> text[1..][at..] == text[at + 1..];
    }
  }

  /** string_view::find('?') and the two substrings. */
  method SplitQuery(text: string) returns (path: string, query: Option<string>)
    ensures Reference(path, query) == Parts(text)
  {
    hide Parts;
    var at := 0;
    while at < |text| && text[at] != '?'
      invariant at <= |text| && forall k :: 0 <= k < at ==> text[k] != '?'
    {
      at := at + 1;
    }
    PartsAtMark(text, at);
    path, query := text[..at], if at < |text| then Some(text[at + 1..]) else None;
  }

  /** resolve_http_client_redirect_path_and_query; the grammar checks are parameters. */
  method ResolvePathAndQuery(hasAuthority: bool, reference: string, currentTarget: string,
                             validPath: string -> bool, validQuery: string -> bool, validTarget: string -> bool)
    returns (resolved: Option<string>)
    requires currentTarget != "" && currentTarget[0] == '/'
    ensures var r, b := Parts(reference), Parts(currentTarget);
            var query := if r.query.Some? then r.query.value else "";
            Absolute(b.path) && b.path != "" &&
            if !validPath(r.path) || !validQuery(query) || (hasAuthority && !Absolute(r.path)) then resolved == None
            else
              var text := Recompose(Target(hasAuthority, r, b));
              resolved == if validTarget(text) then Some(text) else None
  {
    hide Parts, RemoveDots, Join, Split, Pop;
    PathOfTarget(currentTarget);
    var path, query := SplitQuery(reference);
    if !validPath(path) || !validQuery(if query.Some? then query.value else "") {
      return None;
    }
    var selectedPath, selectedQuery := path, query;
    if hasAuthority {
      if path != "" && path[0] != '/' {
        return None;
      }
      if path == "" {
        selectedPath := "/";
        SlashIsClean();
      }
    } else {
      var basePath, baseQuery := SplitQuery(currentTarget);
      if path == "" {
        selectedPath := basePath;
        if query.None? {
          selectedQuery := baseQuery;
        }
      } else if path[0] != '/' {
        var directory := Directory(basePath);
        selectedPath := directory + path;
      }
    }
    var text := selectedPath;
    if hasAuthority || path != "" {
      text := Normalize(selectedPath);
    }
    if selectedQuery.Some? {
      text := text + "?" + selectedQuery.value;
    }
    assert text == Recompose(Target(hasAuthority, Parts(reference), Parts(currentTarget)));
    resolved := if validTarget(text) then Some(text) else None;
  }

  lemma PathOfTarget(target: string)
    requires target != "" && target[0] == '/'
    ensures Absolute(Parts(target).path) && Parts(target).path != ""
  {
  }

  lemma SlashIsClean()
    ensures RemoveDots("/") == RemoveDots("") == "/"
  {
    DotsAreGone("");
  }
}
