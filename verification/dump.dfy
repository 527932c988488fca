/** The metadata dump tool (src/bin/omdump.rs): a pre-order walk over the
    file's variable tree that prints a six-line block per variable, indented
    two spaces per level, with each child's path built from its parent's. */
module Dump {
  import opened Wrappers
  import opened Text
  import opened Arrays

  /** One variable as the reader exposes it. A child slot is None when the
      reader cannot load that child (`get_child` returns None). */
  datatype Variable = Variable(
    name: Option<string>,
    dataType: DataType,
    compression: Compression,
    dims: seq<nat>,
    chunks: seq<nat>,
    children: seq<Option<Variable>>)

  /** Separator between extents: space, multiplication sign, space. */
  const SEPARATOR: string := " × "

  // ---------------------------------------------------------------------
  // Formatting one variable
  // ---------------------------------------------------------------------

  function DisplayName(v: Variable): string {
    match v.name
    case Some(n) => n
    case None => "unnamed"
  }

  function Decimals(xs: seq<nat>): (ds: seq<string>)
    ensures |ds| == |xs| && forall i :: 0 <= i < |xs| ==> ds[i] == Decimal(xs[i])
  {
    seq(|xs|, i requires 0 <= i < |xs| => Decimal(xs[i]))
  }

  /** Extents in decimal joined by the separator; the empty list is "". */
  function ExtentsText(xs: seq<nat>): string {
    Join(Decimals(xs), SEPARATOR)
  }

  /** The chunk list, or "none" when the variable is not chunked. */
  function ChunksText(chunks: seq<nat>): string {
    if |chunks| == 0 then "none" else ExtentsText(chunks)
  }

  /** The six lines printed for one variable. */
  function Header(v: Variable, indent: nat, path: string): (lines: seq<string>)
    ensures |lines| == 6
    ensures forall k :: 0 <= k < 6 ==> |lines[k]| >= indent && lines[k][..indent] == Spaces(indent)
  {
    var pad := Spaces(indent);
    [ pad + "Variable: " + path,
      pad + "  Name: " + DisplayName(v),
      pad + "  Type: " + v.dataType.name,
      pad + "  Compression: " + v.compression.name,
      pad + "  Dimensions: [" + ExtentsText(v.dims) + "]",
      pad + "  Chunks: [" + ChunksText(v.chunks) + "]" ]
  }

  /** The path segment of child i: its name, or child_<i> when it has none. */
  function Segment(child: Variable, i: nat): string {
    match child.name
    case Some(n) => n
    case None => "child_" + Decimal(i)
  }

  /** Nameless siblings get distinct path segments: child_<i> is never
      child_<j> for i != j. */
  lemma NamelessSegmentsDistinct(a: Variable, b: Variable, i: nat, j: nat)
    requires a.name.None? && b.name.None? && i != j
    ensures Segment(a, i) != Segment(b, j)
  {
    DecimalRoundTrip(i);
    DecimalRoundTrip(j);
    assert Decimal(i) != Decimal(j);
    assert Segment(a, i)[6..] == Decimal(i);
    assert Segment(b, j)[6..] == Decimal(j);
  }

  function ChildPath(path: string, segment: string): string {
    if path == "" then segment else path + "/" + segment
  }

  // ---------------------------------------------------------------------
  // The recursive walk
  // ---------------------------------------------------------------------

  /** Number of variables the walk reaches: this one and every loadable descendant. */
  function Count(v: Variable): nat
    decreases v, 1
  {
    1 + CountFrom(v, 0)
  }

  function CountFrom(v: Variable, i: nat): nat
    decreases v, 0, |v.children| - i
  {
    if i >= |v.children| then 0
    else
      (match v.children[i]
       case None => 0
       case Some(c) => Count(c)) + CountFrom(v, i + 1)
  }

  /** `print_variable_info(v, indent, path)`: the lines it prints, in order. */
  function Lines(v: Variable, indent: nat, path: string): (lines: seq<string>)
    ensures |lines| == 6 * Count(v)
    ensures lines[..6] == Header(v, indent, path)
    decreases v, 1
  {
    Header(v, indent, path) + ChildLines(v, indent, path, 0)
  }

  /** The lines printed for children i .. n-1 of v, in index order. */
  function ChildLines(v: Variable, indent: nat, path: string, i: nat): (lines: seq<string>)
    ensures |lines| == 6 * CountFrom(v, i)
    decreases v, 0, |v.children| - i
  {
    if i >= |v.children| then []
    else
      (match v.children[i]
       case None => []
       case Some(c) => Lines(c, indent + 2, ChildPath(path, Segment(c, i))))
      + ChildLines(v, indent, path, i + 1)
  }

  /** `Usage` is the usage message and exit code 1; `Panic` is the panic of
      indexing a missing program name while printing that message. */
  datatype ExitError = Usage | Panic

  /** The banner line printed under the file name. */
  const BANNER: string := "========================================="

  /** `main`: exactly one argument after the program name, the file whose
      root variable is `root`; the dump starts at depth 0 with the empty path. */
  function DumpMain(args: seq<string>, root: Variable): (r: Result<seq<string>, ExitError>)
    ensures r.Err? <==> |args| != 2
    ensures r == Err(Panic) <==> |args| == 0
    ensures r.Ok? ==> |r.value| == 2 + 6 * Count(root)
    ensures r.Ok? ==> r.value[0] == "OM File: " + args[1] && r.value[2] == "Variable: "
    ensures r.Ok? ==> r.value == ["OM File: " + args[1], BANNER] + Lines(root, 0, "")
  {
    if |args| != 2 then (if |args| == 0 then Err(Panic) else Err(Usage))
    else
      var lines := Lines(root, 0, "");
      assert lines[0] == Spaces(0) + "Variable: " + "";
      Ok(["OM File: " + args[1], BANNER] + lines)
  }

  // ---------------------------------------------------------------------
  // The walk is a pre-order traversal
  // ---------------------------------------------------------------------

  /** A variable reached by the walk, with its depth below the start and its path. */
  datatype Visit = Visit(node: Variable, depth: nat, path: string)

  /** Pre-order enumeration: the variable, then each loadable child's subtree
      in child-index order. */
  function Preorder(v: Variable, depth: nat, path: string): (visits: seq<Visit>)
    ensures |visits| == Count(v) && visits[0] == Visit(v, depth, path)
    decreases v, 1
  {
    [Visit(v, depth, path)] + PreorderFrom(v, depth, path, 0)
  }

  function PreorderFrom(v: Variable, depth: nat, path: string, i: nat): (visits: seq<Visit>)
    ensures |visits| == CountFrom(v, i)
    decreases v, 0, |v.children| - i
  {
    if i >= |v.children| then []
    else
      (match v.children[i]
       case None => []
       case Some(c) => Preorder(c, depth + 1, ChildPath(path, Segment(c, i))))
      + PreorderFrom(v, depth, path, i + 1)
  }

  /** The six-line blocks of a list of visits, each indented by its depth. */
  function Render(visits: seq<Visit>): seq<string>
    decreases |visits|
  {
    if |visits| == 0 then []
    else Header(visits[0].node, 2 * visits[0].depth, visits[0].path) + Render(visits[1..])
  }

  lemma {:induction false} RenderAppend(a: seq<Visit>, b: seq<Visit>)
    ensures Render(a + b) == Render(a) + Render(b)
    decreases |a|
  {
    if |a| > 0 {
      RenderAppend(a[1..], b);
      assert (a + b)[0] == a[0];
      assert (a + b)[1..] == a[1..] + b;
      var h := Header(a[0].node, 2 * a[0].depth, a[0].path);
      assert Render(a + b) == h + Render(a[1..] + b);
      assert Render(a) == h + Render(a[1..]);
      assert h + (Render(a[1..]) + Render(b)) == (h + Render(a[1..])) + Render(b);
    } else {
      assert a + b == b;
    }
  }

  /** The dump prints, for every variable in pre-order, its block indented by
      two spaces per level of depth. */
  lemma {:induction false} DumpIsPreorder(v: Variable, depth: nat, path: string)
    ensures Lines(v, 2 * depth, path) == Render(Preorder(v, depth, path))
    decreases v, 1
  {
    var rest := PreorderFrom(v, depth, path, 0);
    ChildrenArePreorder(v, depth, path, 0);
    RenderAppend([Visit(v, depth, path)], rest);
    assert Render([Visit(v, depth, path)]) == Header(v, 2 * depth, path) + Render([]);
  }

  lemma {:induction false} ChildrenArePreorder(v: Variable, depth: nat, path: string, i: nat)
    ensures ChildLines(v, 2 * depth, path, i) == Render(PreorderFrom(v, depth, path, i))
    decreases v, 0, |v.children| - i
  {
    if i < |v.children| {
      ChildrenArePreorder(v, depth, path, i + 1);
      if v.children[i].Some? {
        var c := v.children[i].value;
        var p := ChildPath(path, Segment(c, i));
        DumpIsPreorder(c, depth + 1, p);
        ChildStep(v, depth, path, i, c, p);
      } else {
        SkipStep(v, depth, path, i);
      }
    }
  }

  /** A child that failed to load prints nothing and is not visited. */
  lemma SkipStep(v: Variable, depth: nat, path: string, i: nat)
    requires i < |v.children| && v.children[i].None?
    requires ChildLines(v, 2 * depth, path, i + 1) == Render(PreorderFrom(v, depth, path, i + 1))
    ensures ChildLines(v, 2 * depth, path, i) == Render(PreorderFrom(v, depth, path, i))
  {
    assert PreorderFrom(v, depth, path, i) == PreorderFrom(v, depth, path, i + 1);
    assert ChildLines(v, 2 * depth, path, i) == ChildLines(v, 2 * depth, path, i + 1);
  }

  /** One present child: its own lines followed by its later siblings' lines
      render its walk followed by theirs. */
  lemma ChildStep(v: Variable, depth: nat, path: string, i: nat, c: Variable, p: string)
    requires i < |v.children| && v.children[i] == Some(c) && p == ChildPath(path, Segment(c, i))
    requires Lines(c, 2 * (depth + 1), p) == Render(Preorder(c, depth + 1, p))
    requires ChildLines(v, 2 * depth, path, i + 1) == Render(PreorderFrom(v, depth, path, i + 1))
    ensures ChildLines(v, 2 * depth, path, i) == Render(PreorderFrom(v, depth, path, i))
  {
    var head := Preorder(c, depth + 1, p);
    var tail := PreorderFrom(v, depth, path, i + 1);
    assert PreorderFrom(v, depth, path, i) == head + tail;
    assert ChildLines(v, 2 * depth, path, i) == Lines(c, 2 * depth + 2, p) + ChildLines(v, 2 * depth, path, i + 1);
    RenderAppend(head, tail);
  }

  /** Depths only grow by one per level: every visit of the walk started at
      `depth` lies at `depth` or deeper, and only the first lies at `depth`. */
  lemma {:induction false} PreorderDepths(v: Variable, depth: nat, path: string)
    ensures forall k :: 0 < k < |Preorder(v, depth, path)| ==> Preorder(v, depth, path)[k].depth > depth
    decreases v, 1
  {
    PreorderFromDepths(v, depth, path, 0);
  }

  lemma {:induction false} PreorderFromDepths(v: Variable, depth: nat, path: string, i: nat)
    ensures forall k :: 0 <= k < |PreorderFrom(v, depth, path, i)| ==> PreorderFrom(v, depth, path, i)[k].depth > depth
    decreases v, 0, |v.children| - i
  {
    if i < |v.children| {
      PreorderFromDepths(v, depth, path, i + 1);
      match v.children[i]
      case None =>
      case Some(c) =>
        PreorderDepths(c, depth + 1, ChildPath(path, Segment(c, i)));
    }
  }

  // ---------------------------------------------------------------------
  // The extent lists can be read back
  // ---------------------------------------------------------------------

  /** Length of the run of digits at the start of s. */
  function DigitRun(s: string): (n: nat)
    ensures n <= |s| && AllDigits(s[..n]) && (n < |s| ==> !IsDigit(s[n]))
  {
    if |s| == 0 || !IsDigit(s[0]) then 0
    else
      var n := 1 + DigitRun(s[1..]);
      assert s[..n] == [s[0]] + s[1..][..n - 1];
      n
  }

  /** Reads a non-empty list of decimal extents separated by SEPARATOR. */
  function ParseExtentList(s: string): Option<seq<nat>>
    decreases |s|
  {
    var n := DigitRun(s);
    if n == 0 then None
    else
      var value := DecimalValue(s[..n]);
      var rest := s[n..];
      if rest == [] then Some([value])
      else if |rest| >= |SEPARATOR| && rest[..|SEPARATOR|] == SEPARATOR then
        match ParseExtentList(rest[|SEPARATOR|..])
        case None => None
        case Some(values) => Some([value] + values)
      else None
  }

  function ParseDimsText(s: string): Option<seq<nat>> {
    if s == "" then Some([]) else ParseExtentList(s)
  }

  function ParseChunksText(s: string): Option<seq<nat>> {
    if s == "none" then Some([]) else ParseExtentList(s)
  }

  lemma DigitRunOfDecimal(n: nat, rest: string)
    requires |rest| > 0 ==> !IsDigit(rest[0])
    ensures DigitRun(Decimal(n) + rest) == |Decimal(n)|
  {
    DigitRunPrefix(Decimal(n), rest);
  }

  lemma {:induction false} DigitRunPrefix(a: string, rest: string)
    requires AllDigits(a) && (|rest| > 0 ==> !IsDigit(rest[0]))
    ensures DigitRun(a + rest) == |a|
    decreases |a|
  {
    if |a| > 0 {
      DigitRunPrefix(a[1..], rest);
      assert (a + rest)[1..] == a[1..] + rest;
    }
  }

  lemma {:induction false} ExtentListRoundTrip(xs: seq<nat>)
    requires |xs| > 0
    ensures ParseExtentList(ExtentsText(xs)) == Some(xs)
    decreases |xs|
  {
    var head := Decimal(xs[0]);
    DecimalRoundTrip(xs[0]);
    if |xs| == 1 {
      assert ExtentsText(xs) == head + "" == head;
      DigitRunOfDecimal(xs[0], "");
      assert head[..|head|] == head;
      assert head[|head|..] == [];
      assert [xs[0]] == xs;
    } else {
      var tail := ExtentsText(xs[1..]);
      var rest := SEPARATOR + tail;
      var s := ExtentsText(xs);
      assert s == head + rest by {
        assert Decimals(xs)[1..] == Decimals(xs[1..]);
      }
      DigitRunOfDecimal(xs[0], rest);
      assert s[..|head|] == head && s[|head|..] == rest;
      assert rest[..|SEPARATOR|] == SEPARATOR && rest[|SEPARATOR|..] == tail;
      ExtentListRoundTrip(xs[1..]);
      assert ParseExtentList(s) == Some([xs[0]] + xs[1..]);
      assert [xs[0]] + xs[1..] == xs;
    }
  }

  /** The Dimensions line loses nothing: its text reads back as the extents. */
  lemma DimsTextRoundTrip(dims: seq<nat>)
    ensures ParseDimsText(ExtentsText(dims)) == Some(dims)
  {
    if |dims| > 0 {
      ExtentListRoundTrip(dims);
      assert IsDigit(ExtentsText(dims)[0]) by {
        DigitRunOfDecimal(dims[0], ExtentsText(dims)[|Decimal(dims[0])|..]);
        JoinStartsWithFirst(Decimals(dims), SEPARATOR);
      }
    }
  }

  /** The Chunks line loses nothing either: "none" stands for the empty list
      and cannot be mistaken for a list of extents. */
  lemma ChunksTextRoundTrip(chunks: seq<nat>)
    ensures ParseChunksText(ChunksText(chunks)) == Some(chunks)
  {
    if |chunks| > 0 {
      ExtentListRoundTrip(chunks);
      JoinStartsWithFirst(Decimals(chunks), SEPARATOR);
      assert ChunksText(chunks)[0] == Decimal(chunks[0])[0];
      assert ChunksText(chunks) != "none";
    }
  }

  lemma JoinStartsWithFirst(parts: seq<string>, sep: string)
    requires |parts| > 0
    ensures |parts[0]| <= |Join(parts, sep)| && Join(parts, sep)[..|parts[0]|] == parts[0]
  {
  }
}
