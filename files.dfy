/** The filesystem as the handlers see it: read-only, a map from path to what is there. */
module Files {
  import opened Common
  import opened Text

  newtype byte = x: int | 0 <= x < 256

  /** A path as its name elements, outermost first: ["www", "css", "main.css"]. */
  type Path = seq<string>

  datatype Node = RegularFile(contents: seq<byte>) | Directory

  /** A path absent from the map does not exist. */
  type FileSystem = map<Path, Node>

  /**
   * The name elements of a path string. Repeated and trailing slashes add no element, and a
   * leading slash makes the path absolute without adding one.
   */
  function Segments(p: string): (r: seq<string>)
    ensures forall i :: 0 <= i < |r| ==> IsField(r[i], {'/'})
  {
    Fields(p, {'/'})
  }

  /**
   * The name elements are the path's longest slash-free runs, left to right: a slash in front
   * adds nothing (so repeated and leading slashes add nothing), and a name followed by a slash
   * is the first element.
   */
  lemma SegmentsSteps(name: string, rest: string)
    requires IsField(name, {'/'})
    ensures Segments("/" + rest) == Segments(rest)
    ensures Segments(name + "/" + rest) == [name] + Segments(rest)
    ensures Segments(name) == [name]
  {
    FieldsSkipDelimiter('/', rest, {'/'});
    FieldThenDelimiter(name, '/', rest, {'/'});
    FieldsOfField(name, {'/'});
  }

  /** `new File(parent, child)`: the child string's name elements below the parent. */
  function Resolve(parent: Path, child: string): Path {
    parent + Segments(child)
  }

  /** `new File(parent, child)` for a child that is a single name. */
  function Child(parent: Path, name: string): Path {
    parent + [name]
  }

  /**
   * readFile: the bytes of a regular file. Opening a missing path or a directory with
   * FileInputStream raises an IOException, modelled as None.
   */
  function ReadFile(fs: FileSystem, p: Path): (r: Option<seq<byte>>)
    ensures r.Some? <==> p in fs && fs[p].RegularFile?
    ensures r.Some? ==> r.value == fs[p].contents
  {
    if p in fs && fs[p].RegularFile? then Some(fs[p].contents) else None
  }
}
