/**
 * resolveResource: the requested resource's name elements, without "." and "..", re-joined
 * below an empty base path; "index.html" when no element is left.
 */
module PathResolver {
  import opened Common
  import opened Text
  import opened Files

  const IndexHtml := "index.html"

  /** A name element the loop skips: Path.startsWith(".") or startsWith("..") on a one-element path. */
  predicate IsDotSegment(name: string) {
    name == "." || name == ".."
  }

  /** The name elements the loop resolves onto the base, in the order it meets them. */
  function Kept(names: seq<string>): (r: seq<string>)
    ensures |r| <= |names|
    decreases |names|
  {
    if names == [] then []
    else
      var last := names[|names| - 1];
      Kept(names[..|names| - 1]) + (if IsDotSegment(last) then [] else [last])
  }

  /**
   * The name elements of the resolved path. The final `startsWith("")` test holds only for
   * the empty path, so "index.html" is appended exactly when nothing was kept.
   */
  function ResolvedNames(requested: string): (r: seq<string>)
    ensures r != []
  {
    var kept := Kept(Segments(requested));
    if kept == [] then [IndexHtml] else kept
  }

  /**
   * resolveResource. Building a Path from a string holding NUL raises InvalidPathException,
   * which nothing catches: None.
   */
  method ResolveResource(requested: string) returns (r: Option<string>)
    ensures r.None? <==> '\0' in requested
    ensures r.Some? ==> r.value == JoinWith(ResolvedNames(requested), '/')
  {
    if '\0' in requested {
      return None;
    }
    var names := Segments(requested);
    var resolved: seq<string> := [];
    for i := 0 to |names|
      invariant resolved == Kept(names[..i])
    {
      var name := names[i];
      if name != "." && name != ".." {
        resolved := resolved + [name];
      }
      assert names[..i + 1][..i] == names[..i];
    }
    assert names[..|names|] == names;
    if resolved == [] {
      resolved := resolved + [IndexHtml];
    }
    return Some(JoinWith(resolved, '/'));
  }

  // ---------------------------------------------------------------------------
  // Properties of the resolved path
  // ---------------------------------------------------------------------------

  /** An element is kept exactly when it occurs in the input and is not a dot element. */
  lemma {:induction false} KeptMembers(names: seq<string>, x: string)
    ensures x in Kept(names) <==> x in names && !IsDotSegment(x)
    decreases |names|
  {
    if names != [] {
      var init, last := names[..|names| - 1], names[|names| - 1];
      KeptMembers(init, x);
      assert names == init + [last];
    }
  }

  /** Filtering distributes over concatenation, so the kept elements stay in their order. */
  lemma {:induction false} KeptAppend(a: seq<string>, b: seq<string>)
    ensures Kept(a + b) == Kept(a) + Kept(b)
    decreases |b|
  {
    if b == [] {
      assert a + b == a;
    } else {
      var init, last := b[..|b| - 1], b[|b| - 1];
      assert (a + b)[..|a + b| - 1] == a + init;
      KeptAppend(a, init);
    }
  }

  /** Nothing is kept exactly when every element is "." or "..". */
  lemma {:induction false} KeptEmpty(names: seq<string>)
    ensures Kept(names) == [] <==> forall i :: 0 <= i < |names| ==> IsDotSegment(names[i])
    decreases |names|
  {
    if names != [] {
      var init := names[..|names| - 1];
      KeptEmpty(init);
      if Kept(names) == [] {
        assert forall i :: 0 <= i < |init| ==> names[i] == init[i];
      }
    }
  }

  /** The kept elements are non-empty, slash-free and never "." or "..". */
  lemma {:induction false} KeptClean(names: seq<string>)
    requires forall i :: 0 <= i < |names| ==> IsField(names[i], {'/'})
    ensures forall i :: 0 <= i < |Kept(names)| ==> IsField(Kept(names)[i], {'/'})
    ensures forall i :: 0 <= i < |Kept(names)| ==> !IsDotSegment(Kept(names)[i])
    decreases |names|
  {
    if names != [] {
      KeptClean(names[..|names| - 1]);
    }
  }

  /**
   * The resolved path has at least one element, and none is empty, holds a slash, or is a
   * dot element: it cannot climb out of the directory it is later resolved against.
   */
  lemma ResolvedClean(requested: string)
    ensures ResolvedNames(requested) != []
    ensures forall i :: 0 <= i < |ResolvedNames(requested)| ==> IsField(ResolvedNames(requested)[i], {'/'})
    ensures forall i :: 0 <= i < |ResolvedNames(requested)| ==> !IsDotSegment(ResolvedNames(requested)[i])
  {
    KeptClean(Segments(requested));
    assert IsField(IndexHtml, {'/'});
  }

  /** "index.html" is served by default exactly when the request names no ordinary element. */
  lemma IndexFallback(requested: string)
    ensures (forall i :: 0 <= i < |Segments(requested)| ==> IsDotSegment(Segments(requested)[i]))
            ==> ResolvedNames(requested) == [IndexHtml]
    ensures (exists i :: 0 <= i < |Segments(requested)| && !IsDotSegment(Segments(requested)[i]))
            ==> ResolvedNames(requested) == Kept(Segments(requested))
  {
    KeptEmpty(Segments(requested));
  }

  /** The resolved string, read back as a path, has exactly the resolved name elements. */
  lemma ResolvedRoundTrip(requested: string)
    ensures Segments(JoinWith(ResolvedNames(requested), '/')) == ResolvedNames(requested)
  {
    ResolvedClean(requested);
    FieldsOfJoin(ResolvedNames(requested), '/', {'/'});
  }
}
