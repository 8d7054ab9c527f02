/**
 * `load_obj`: reading a Wavefront OBJ file into position, texture-coordinate
 * and normal lists plus the face corners, then turning the corners into a
 * de-duplicated vertex list and a 16-bit index buffer.
 *
 * A line is given as its whitespace-separated tokens (what successive `>>`
 * into std::string read) and an opaque attribute value standing for the
 * floats of a v, vt or vn line; reading floats is not modelled. The face
 * corners are read with the integer extraction of std::istream written out,
 * including its failure modes.
 */
module ObjLoader {
  import opened Bytes
  import opened Seqs

  /** One line of the file: its tokens, and the attribute its numbers denote. */
  datatype Line<A> = Line(tokens: seq<string>, attr: A)

  /** The word `is >> type` reads: the first token, or "" on a blank line. */
  function Keyword<A>(l: Line<A>): string
  {
    if l.tokens == [] then "" else l.tokens[0]
  }

  /** `is >> args[k]`: the token after the keyword and k others, or "" when the line is shorter. */
  function Arg<A>(l: Line<A>, k: nat): string
  {
    if k + 1 < |l.tokens| then l.tokens[k + 1] else ""
  }

  // ---------------------------------------------------------------------------
  // Reading an int from a std::stringstream

  predicate IsDigit(c: char)
  {
    '0' <= c <= '9'
  }

  function DigitValue(c: char): (v: nat)
    requires IsDigit(c)
    ensures v < 10
  {
    c as int - '0' as int
  }

  predicate AllDigits(d: string)
  {
    |d| > 0 && forall i :: 0 <= i < |d| ==> IsDigit(d[i])
  }

  /** acc followed by the decimal digits d. */
  function Decimal(d: string, acc: nat): nat
    requires forall i :: 0 <= i < |d| ==> IsDigit(d[i])
  {
    if d == [] then acc else Decimal(d[1..], 10 * acc + DigitValue(d[0]))
  }

  /** The number a string of decimal digits denotes. */
  function Value(d: string): nat
    requires AllDigits(d)
  {
    Decimal(d, 0)
  }

  /** Where a scan of digits stopped, and the value accumulated. */
  datatype Scan = Scan(end: nat, value: nat)

  /** num_get's digit loop: from position i, accumulate decimal digits onto acc. */
  function ScanDigits(s: string, i: nat, acc: nat): (r: Scan)
    requires i <= |s|
    ensures i <= r.end <= |s|
    ensures forall k :: i <= k < r.end ==> IsDigit(s[k])
    ensures r.end == |s| || !IsDigit(s[r.end])
    decreases |s| - i
  {
    if i < |s| && IsDigit(s[i]) then ScanDigits(s, i + 1, 10 * acc + DigitValue(s[i])) else Scan(i, acc)
  }

  /** A std::stringstream over text: the read position and whether it is still good(). */
  datatype Stream = Stream(text: string, pos: nat, good: bool)

  predicate Within(st: Stream)
  {
    st.pos <= |st.text|
  }

  /**
   * What `s >> n` does to an int n: Written (0 when no digits follow), or
   * Untouched when the sentry fails and n keeps its indeterminate value.
   */
  datatype IntRead = Written(n: int) | Untouched

  datatype Extraction = Extraction(value: IntRead, after: Stream)

  /**
   * Integer extraction: nothing is written once the stream has failed or
   * reached its end; otherwise a number is read where the stream stands.
   */
  function ExtractInt(st: Stream): (e: Extraction)
    requires Within(st)
    ensures Within(e.after) && e.after.text == st.text
    ensures e.value.Untouched? <==> !st.good || st.pos == |st.text|
  {
    if !st.good || st.pos == |st.text| then Extraction(Untouched, st.(good := false))
    else ReadNumber(st.text, st.pos)
  }

  /**
   * num_get for an int: an optional sign and the longest run of digits; no
   * digits writes 0 and fails the stream, and a number that ends the text
   * leaves the stream at its end.
   */
  function ReadNumber(s: string, from: nat): (e: Extraction)
    requires from < |s|
    ensures e.value.Written? && Within(e.after) && e.after.text == s
  {
    var negative := s[from] == '-';
    var start := if negative || s[from] == '+' then from + 1 else from;
    var scan := ScanDigits(s, start, 0);
    if scan.end == start then Extraction(Written(0), Stream(s, start, false))
    else
      var v: int := scan.value;
      Extraction(Written(if negative then -v else v), Stream(s, scan.end, scan.end < |s|))
  }

  /**
   * `s.ignore(1)`: skip one character. At the end of the text it sets eofbit
   * (not failbit); the model records that as `good := false`, since the next
   * `>>` then fails in its sentry.
   */
  function Ignore(st: Stream): (r: Stream)
    requires Within(st)
    ensures Within(r) && r.text == st.text
    ensures st.good && st.pos < |st.text| ==> r.pos == st.pos + 1 && r.good
    ensures !st.good || st.pos == |st.text| ==> !r.good
  {
    if !st.good then st
    else if st.pos == |st.text| then st.(good := false)
    else st.(pos := st.pos + 1)
  }

  /** The zero-based (position, texture coordinate, normal) indices of one face corner. */
  datatype Triple = Triple(position: int, texCoord: int, normal: int)

  /** A corner whose three ints were all written, or one holding an indeterminate value. */
  datatype Corner = Read(triple: Triple) | Indeterminate

  /**
   * One corner token read as vertex, ignore(1), uv, ignore(1), normal, each
   * decremented. Indeterminate when one of the three ints is left unwritten:
   * the source then pushes an uninitialised value.
   */
  function ReadCorner(token: string): (r: Corner)
  {
    var a := ExtractInt(Stream(token, 0, true));
    var b := ExtractInt(Ignore(a.after));
    var c := ExtractInt(Ignore(b.after));
    if a.value.Written? && b.value.Written? && c.value.Written? then
      Read(Triple(a.value.n - 1, b.value.n - 1, c.value.n - 1))
    else Indeterminate
  }

  /** Scanning the digits p where they stand in t, up to a non-digit or the end, appends them to acc. */
  lemma {:induction false} ScanOver(p: string, t: string, off: nat, acc: nat)
    requires forall i :: 0 <= i < |p| ==> IsDigit(p[i])
    requires off + |p| <= |t| && t[off..off + |p|] == p
    requires off + |p| == |t| || !IsDigit(t[off + |p|])
    ensures ScanDigits(t, off, acc) == Scan(off + |p|, Decimal(p, acc))
    decreases |p|
  {
    if p != [] {
      assert t[off] == p[0];
      assert t[off + 1..off + |p|] == p[1..];
      ScanOver(p[1..], t, off + 1, 10 * acc + DigitValue(p[0]));
    }
  }

  /** Extracting where the digits p stand in t, followed by a non-digit or the end, reads their value. */
  lemma ExtractAt(p: string, t: string, off: nat)
    requires AllDigits(p)
    requires off + |p| <= |t| && t[off..off + |p|] == p
    requires off + |p| == |t| || !IsDigit(t[off + |p|])
    ensures ExtractInt(Stream(t, off, true)) == Extraction(Written(Value(p)), Stream(t, off + |p|, off + |p| < |t|))
  {
    assert t[off] == p[0];
    ScanOver(p, t, off, 0);
  }

  /** With no digit after the optional sign, the number reads as 0 and the stream fails where the digits would start. */
  lemma ReadNumberNoDigits(s: string, from: nat)
    requires from < |s|
    ensures var start := if s[from] == '-' || s[from] == '+' then from + 1 else from;
            var e := ReadNumber(s, from);
            start == |s| || !IsDigit(s[start]) <==> e.value == Written(0) && e.after == Stream(s, start, false)
  {
  }

  /**
   * With a digit after the optional sign, the number consumes the whole run
   * of digits there, up to a non-digit or the end, has their decimal value,
   * negated after '-', and leaves the stream good only before the end.
   */
  lemma ReadNumberValue(s: string, from: nat)
    requires from < |s|
    ensures var e := ReadNumber(s, from);
            var start := if s[from] == '-' || s[from] == '+' then from + 1 else from;
            start < |s| && IsDigit(s[start]) ==>
              && start < e.after.pos
              && (e.after.good <==> e.after.pos < |s|)
              && (forall k :: start <= k < e.after.pos ==> IsDigit(s[k]))
              && (e.after.pos == |s| || !IsDigit(s[e.after.pos]))
              && (var v: int := Value(s[start..e.after.pos]);
                  e.value.n == (if s[from] == '-' then -v else v))
  {
    var e := ReadNumber(s, from);
    var start := if s[from] == '-' || s[from] == '+' then from + 1 else from;
    if start < e.after.pos {
      var p := s[start..e.after.pos];
      assert s[start..start + |p|] == p;
      ScanOver(p, s, start, 0);
    }
  }

  /** ReadCorner as the three extractions it chains. */
  lemma ReadCornerSteps(token: string, e1: Extraction, e2: Extraction, e3: Extraction)
    requires e1 == ExtractInt(Stream(token, 0, true))
    requires e2 == ExtractInt(Ignore(e1.after))
    requires e3 == ExtractInt(Ignore(e2.after))
    requires e1.value.Written? && e2.value.Written? && e3.value.Written?
    ensures ReadCorner(token) == Read(Triple(e1.value.n - 1, e2.value.n - 1, e3.value.n - 1))
  {
  }

  /**
   * A token that starts with the digits a, '/', the digits b, '/': the first
   * two extractions read a and b, and the third starts just after the second '/'.
   */
  lemma TwoNumbersAt(t: string, a: string, b: string) returns (e1: Extraction, e2: Extraction)
    requires AllDigits(a) && AllDigits(b)
    requires |t| >= |a| + 1 + |b| + 1
    requires t[..|a|] == a && t[|a|] == '/'
    requires t[|a| + 1..|a| + 1 + |b|] == b && t[|a| + 1 + |b|] == '/'
    ensures e1 == ExtractInt(Stream(t, 0, true)) && e1.value == Written(Value(a))
    ensures e2 == ExtractInt(Ignore(e1.after)) && e2.value == Written(Value(b))
    ensures Ignore(e2.after) == Stream(t, |a| + 1 + |b| + 1, true)
  {
    var i := |a|;
    assert t[0..i] == a;
    ExtractAt(a, t, 0);
    e1 := ExtractInt(Stream(t, 0, true));
    assert Ignore(e1.after) == Stream(t, i + 1, true);
    ExtractAt(b, t, i + 1);
    e2 := ExtractInt(Ignore(e1.after));
  }

  /** A token laid out as the digits a, '/', the digits b, '/', the digits c. */
  lemma CornerAt(t: string, a: string, b: string, c: string)
    requires AllDigits(a) && AllDigits(b) && AllDigits(c)
    requires |t| == |a| + 1 + |b| + 1 + |c|
    requires t[..|a|] == a && t[|a|] == '/'
    requires t[|a| + 1..|a| + 1 + |b|] == b && t[|a| + 1 + |b|] == '/'
    requires t[|a| + 1 + |b| + 1..] == c
    ensures ReadCorner(t) == Read(Triple(Value(a) - 1, Value(b) - 1, Value(c) - 1))
  {
    var e1, e2 := TwoNumbersAt(t, a, b);
    var j := |a| + 1 + |b|;
    assert t[j + 1..j + 1 + |c|] == c;
    ExtractAt(c, t, j + 1);
    var e3 := ExtractInt(Ignore(e2.after));
    ReadCornerSteps(t, e1, e2, e3);
  }

  /** The Wavefront token "a/b/c" of three decimal numbers becomes (a-1, b-1, c-1). */
  lemma CornerOfNumbers(a: string, b: string, c: string)
    requires AllDigits(a) && AllDigits(b) && AllDigits(c)
    ensures ReadCorner(a + "/" + b + "/" + c) == Read(Triple(Value(a) - 1, Value(b) - 1, Value(c) - 1))
  {
    var t := a + "/" + b + "/" + c;
    assert t[..|a|] == a;
    assert t[|a| + 1..|a| + 1 + |b|] == b;
    assert t[|a| + 1 + |b| + 1..] == c;
    CornerAt(t, a, b, c);
  }

  /**
   * The "v//n" form (no texture coordinate) leaves the normal unwritten: the
   * texture coordinate reads as 0 and fails the stream.
   */
  lemma CornerWithoutTexCoord(a: string, c: string)
    requires AllDigits(a) && AllDigits(c)
    ensures ReadCorner(a + "//" + c) == Indeterminate
  {
    var t := a + "//" + c;
    assert t[0..|a|] == a && t[|a|] == '/' && t[|a| + 1] == '/';
    ExtractAt(a, t, 0);
  }

  /** Extracting at a character that is neither a digit nor a sign writes 0 and fails the stream. */
  lemma ExtractNoDigits(t: string, off: nat)
    requires off < |t| && !IsDigit(t[off]) && t[off] != '-' && t[off] != '+'
    ensures ExtractInt(Stream(t, off, true)).value == Written(0)
  {
  }

  /** A token laid out as the digits a, '/', the digits b, '/', then a character that starts no number. */
  lemma CornerAtBadNormal(t: string, a: string, b: string)
    requires AllDigits(a) && AllDigits(b)
    requires |t| > |a| + 1 + |b| + 1
    requires t[..|a|] == a && t[|a|] == '/'
    requires t[|a| + 1..|a| + 1 + |b|] == b && t[|a| + 1 + |b|] == '/'
    requires var x := t[|a| + 1 + |b| + 1]; !IsDigit(x) && x != '-' && x != '+'
    ensures ReadCorner(t) == Read(Triple(Value(a) - 1, Value(b) - 1, -1))
  {
    var e1, e2 := TwoNumbersAt(t, a, b);
    ExtractNoDigits(t, |a| + 1 + |b| + 1);
    var e3 := ExtractInt(Ignore(e2.after));
    ReadCornerSteps(t, e1, e2, e3);
  }

  /**
   * A normal that starts with neither a digit nor a sign, as in "1/2/x", is
   * read as 0: the corner is (a-1, b-1, -1) rather than indeterminate.
   */
  lemma CornerWithBadNormal(a: string, b: string, x: char, rest: string)
    requires AllDigits(a) && AllDigits(b)
    requires !IsDigit(x) && x != '-' && x != '+'
    ensures ReadCorner(a + "/" + b + "/" + [x] + rest) == Read(Triple(Value(a) - 1, Value(b) - 1, -1))
  {
    var t := a + "/" + b + "/" + [x] + rest;
    assert t[..|a|] == a;
    assert t[|a| + 1..|a| + 1 + |b|] == b;
    assert t[|a| + 1 + |b| + 1] == x;
    CornerAtBadNormal(t, a, b);
  }

  // ---------------------------------------------------------------------------
  // The line loop

  /** What the line loop has collected. */
  datatype ObjData<A> = ObjData(positions: seq<A>, texCoords: seq<A>, normals: seq<A>, indices: seq<Corner>)

  /** The corners a face line contributes: its first three tokens only. */
  function Corners<A>(l: Line<A>): (r: seq<Corner>)
    ensures |r| == 3 && forall k :: 0 <= k < 3 ==> r[k] == ReadCorner(Arg(l, k))
  {
    [ReadCorner(Arg(l, 0)), ReadCorner(Arg(l, 1)), ReadCorner(Arg(l, 2))]
  }

  /** The effect of one line; lines with any other keyword change nothing. */
  function ParseLine<A>(d: ObjData<A>, l: Line<A>): ObjData<A>
  {
    match Keyword(l)
    case "v" => d.(positions := d.positions + [l.attr])
    case "vt" => d.(texCoords := d.texCoords + [l.attr])
    case "vn" => d.(normals := d.normals + [l.attr])
    case "f" => d.(indices := d.indices + Corners(l))
    case _ => d
  }

  /** Everything the loop has collected after reading all of lines. */
  function Parsed<A>(lines: seq<Line<A>>): ObjData<A>
  {
    if lines == [] then ObjData([], [], [], [])
    else ParseLine(Parsed(lines[..|lines| - 1]), lines[|lines| - 1])
  }

  /** The attributes of the lines with keyword kw, in file order. */
  function Attrs<A>(lines: seq<Line<A>>, kw: string): seq<A>
  {
    if lines == [] then []
    else if Keyword(lines[0]) == kw then [lines[0].attr] + Attrs(lines[1..], kw)
    else Attrs(lines[1..], kw)
  }

  /** The number of lines with keyword kw. */
  function Count<A>(lines: seq<Line<A>>, kw: string): nat
  {
    if lines == [] then 0
    else (if Keyword(lines[0]) == kw then 1 else 0) + Count(lines[1..], kw)
  }

  lemma {:induction false} AttrsAppend<A>(lines: seq<Line<A>>, l: Line<A>, kw: string)
    ensures Attrs(lines + [l], kw) == Attrs(lines, kw) + (if Keyword(l) == kw then [l.attr] else [])
    ensures Count(lines + [l], kw) == Count(lines, kw) + (if Keyword(l) == kw then 1 else 0)
  {
    if lines != [] {
      assert (lines + [l])[1..] == lines[1..] + [l];
      AttrsAppend(lines[1..], l, kw);
    }
  }

  /**
   * Positions, texture coordinates and normals are the attributes of the v,
   * vt and vn lines in file order, and every f line adds exactly three corners.
   */
  lemma {:induction false} ParsedCollects<A>(lines: seq<Line<A>>)
    ensures Parsed(lines).positions == Attrs(lines, "v")
    ensures Parsed(lines).texCoords == Attrs(lines, "vt")
    ensures Parsed(lines).normals == Attrs(lines, "vn")
    ensures |Parsed(lines).indices| == 3 * Count(lines, "f")
  {
    if lines != [] {
      var init, l := lines[..|lines| - 1], lines[|lines| - 1];
      assert lines == init + [l];
      ParsedCollects(init);
      AttrsAppend(init, l, "v");
      AttrsAppend(init, l, "vt");
      AttrsAppend(init, l, "vn");
      AttrsAppend(init, l, "f");
    }
  }

  predicate Recognised(kw: string)
  {
    kw == "v" || kw == "vt" || kw == "vn" || kw == "f"
  }

  /** Parsing continues from what was collected, not from which lines produced it. */
  lemma {:induction false} ParsedSameStart<A>(x: seq<Line<A>>, y: seq<Line<A>>, after: seq<Line<A>>)
    requires Parsed(x) == Parsed(y)
    ensures Parsed(x + after) == Parsed(y + after)
  {
    if after != [] {
      var init, l := after[..|after| - 1], after[|after| - 1];
      ParsedSameStart(x, y, init);
      assert (x + after)[..|x + after| - 1] == x + init;
      assert (y + after)[..|y + after| - 1] == y + init;
      assert (x + after)[|x + after| - 1] == l == (y + after)[|y + after| - 1];
      assert Parsed(x + after) == ParseLine(Parsed(x + init), l);
      assert Parsed(y + after) == ParseLine(Parsed(y + init), l);
    } else {
      assert x + after == x && y + after == y;
    }
  }

  /** A line whose keyword is none of v, vt, vn and f can be deleted without effect. */
  lemma IgnoredLine<A>(before: seq<Line<A>>, l: Line<A>, after: seq<Line<A>>)
    requires !Recognised(Keyword(l))
    ensures Parsed(before + [l] + after) == Parsed(before + after)
  {
    assert (before + [l])[..|before|] == before;
    ParsedSameStart(before + [l], before, after);
  }

  lemma ParsedStep<A>(lines: seq<Line<A>>, n: nat)
    requires n < |lines|
    ensures Parsed(lines[..n + 1]) == ParseLine(Parsed(lines[..n]), lines[n])
  {
    assert lines[..n + 1][..n] == lines[..n];
  }

  /** The loop over the three corner tokens of an f line. */
  method ReadFace<A>(line: Line<A>) returns (corners: seq<Corner>)
    ensures corners == Corners(line)
  {
    corners := [];
    for i := 0 to 3
      invariant corners == Corners(line)[..i]
    {
      assert Corners(line)[..i + 1] == Corners(line)[..i] + [Corners(line)[i]];
      corners := corners + [ReadCorner(Arg(line, i))];
    }
  }

  /**
   * The getline loop of `load_obj`: v, vt and vn lines append their
   * attribute, an f line appends the corners of its first three tokens, and
   * every other line is skipped. Opening the file is not modelled.
   */
  method ParseObj<A>(lines: seq<Line<A>>) returns (positions: seq<A>, texCoords: seq<A>, normals: seq<A>, indices: seq<Corner>)
    ensures ObjData(positions, texCoords, normals, indices) == Parsed(lines)
  {
    positions, texCoords, normals, indices := [], [], [], [];
    var n := 0;
    while n < |lines|
      invariant 0 <= n <= |lines|
      invariant ObjData(positions, texCoords, normals, indices) == Parsed(lines[..n])
    {
      var line := lines[n];
      var kind := Keyword(line);
      if kind == "v" {
        positions := positions + [line.attr];
      }
      if kind == "vt" {
        texCoords := texCoords + [line.attr];
      }
      if kind == "vn" {
        normals := normals + [line.attr];
      }
      if kind == "f" {
        var corners := ReadFace(line);
        indices := indices + corners;
      }
      ParsedStep(lines, n);
      n := n + 1;
    }
    assert lines[..n] == lines;
  }

  // ---------------------------------------------------------------------------
  // De-duplication into a vertex list and an index buffer

  datatype Vertex<A> = Vertex(position: A, normal: A, texCoord: A)

  /** A corner that was read in full and whose three indices address existing entries. */
  predicate Usable<A>(c: Corner, positions: seq<A>, texCoords: seq<A>, normals: seq<A>)
  {
    && c.Read?
    && 0 <= c.triple.position < |positions|
    && 0 <= c.triple.texCoord < |texCoords|
    && 0 <= c.triple.normal < |normals|
  }

  function VertexOf<A>(c: Corner, positions: seq<A>, texCoords: seq<A>, normals: seq<A>): Vertex<A>
    requires Usable(c, positions, texCoords, normals)
  {
    Vertex(positions[c.triple.position], normals[c.triple.normal], texCoords[c.triple.texCoord])
  }

  /** The vertex of each corner in turn. */
  function VerticesOf<A>(cs: seq<Corner>, positions: seq<A>, texCoords: seq<A>, normals: seq<A>): (r: seq<Vertex<A>>)
    requires forall k :: 0 <= k < |cs| ==> Usable(cs[k], positions, texCoords, normals)
    ensures |r| == |cs|
  {
    if cs == [] then []
    else VerticesOf(cs[..|cs| - 1], positions, texCoords, normals) + [VertexOf(cs[|cs| - 1], positions, texCoords, normals)]
  }

  lemma {:induction false} VerticesOfEntries<A>(cs: seq<Corner>, positions: seq<A>, texCoords: seq<A>, normals: seq<A>)
    requires forall k :: 0 <= k < |cs| ==> Usable(cs[k], positions, texCoords, normals)
    ensures forall k :: 0 <= k < |cs| ==> VerticesOf(cs, positions, texCoords, normals)[k] == VertexOf(cs[k], positions, texCoords, normals)
  {
    if cs != [] {
      VerticesOfEntries(cs[..|cs| - 1], positions, texCoords, normals);
    }
  }

  lemma VerticesOfAppend<A>(cs: seq<Corner>, c: Corner, positions: seq<A>, texCoords: seq<A>, normals: seq<A>)
    requires forall k :: 0 <= k < |cs| ==> Usable(cs[k], positions, texCoords, normals)
    requires Usable(c, positions, texCoords, normals)
    ensures forall k :: 0 <= k < |cs + [c]| ==> Usable((cs + [c])[k], positions, texCoords, normals)
    ensures VerticesOf(cs + [c], positions, texCoords, normals)
            == VerticesOf(cs, positions, texCoords, normals) + [VertexOf(c, positions, texCoords, normals)]
  {
    assert (cs + [c])[..|cs|] == cs;
  }

  /** Indices are stored as uint16_t. */
  const IndexModulus: nat := 0x1_0000

  /**
   * The index buffer as the source means it: for each corner, its position
   * among the distinct corners in order of first use, truncated to 16 bits.
   */
  function IndexBuffer<T(==)>(s: seq<T>): (r: seq<u16>)
    ensures |r| == |s|
  {
    if s == [] then []
    else IndexBuffer(s[..|s| - 1]) + [Find(Distinct(s), s[|s| - 1]) % IndexModulus]
  }

  /** Each entry of the index buffer is the truncated position of its corner among the distinct corners. */
  lemma {:induction false} IndexBufferAt<T>(s: seq<T>, i: nat)
    requires i < |s|
    ensures IndexBuffer(s)[i] == Find(Distinct(s), s[i]) % IndexModulus
  {
    var p, last := s[..|s| - 1], s[|s| - 1];
    if i < |p| {
      assert s[..|p|] == p;
      IndexBufferAt(p, i);
      DistinctStep(s, |p|);
      assert s[i] == p[i];
      DistinctElements(p, p[i]);
      FindAppend(Distinct(p), last, p[i]);
    }
  }

  /** What the de-duplication loop has built after the first i corners. */
  ghost predicate Deduplicated<A>(indices: seq<Corner>, i: nat, vertices: seq<Vertex<A>>, combos: seq<Corner>, newIndices: seq<u16>,
                                  positions: seq<A>, texCoords: seq<A>, normals: seq<A>)
    requires i <= |indices|
  {
    && combos == Distinct(indices[..i])
    && (forall k :: 0 <= k < |combos| ==> Usable(combos[k], positions, texCoords, normals))
    && vertices == VerticesOf(combos, positions, texCoords, normals)
    && newIndices == IndexBuffer(indices[..i])
  }

  /**
   * The de-duplication loop: a corner not seen before becomes a new vertex
   * and gets the next index, a repeated corner reuses the index of its first
   * occurrence; each index is truncated to 16 bits.
   */
  method Deduplicate<A>(indices: seq<Corner>, positions: seq<A>, texCoords: seq<A>, normals: seq<A>)
    returns (vertices: seq<Vertex<A>>, combos: seq<Corner>, newIndices: seq<u16>)
    requires forall i :: 0 <= i < |indices| ==> Usable(indices[i], positions, texCoords, normals)
    ensures combos == Distinct(indices)
    ensures forall k :: 0 <= k < |combos| ==> Usable(combos[k], positions, texCoords, normals)
    ensures vertices == VerticesOf(combos, positions, texCoords, normals)
    ensures newIndices == IndexBuffer(indices)
  {
    vertices, combos, newIndices := [], [], [];
    for i := 0 to |indices|
      invariant Deduplicated(indices, i, vertices, combos, newIndices, positions, texCoords, normals)
    {
      var index := indices[i];
      var p := Find(combos, index);
      if p == |combos| {
        NewCorner(indices, i, vertices, combos, newIndices, positions, texCoords, normals);
        newIndices := newIndices + [|vertices| % IndexModulus];
        vertices := vertices + [VertexOf(index, positions, texCoords, normals)];
        combos := combos + [index];
      } else {
        SeenCorner(indices, i, vertices, combos, newIndices, positions, texCoords, normals);
        newIndices := newIndices + [p % IndexModulus];
      }
    }
    assert indices[..|indices|] == indices;
  }

  /** A corner not seen before: a new vertex, and the next index. */
  lemma NewCorner<A>(indices: seq<Corner>, i: nat, vertices: seq<Vertex<A>>, combos: seq<Corner>, newIndices: seq<u16>,
                     positions: seq<A>, texCoords: seq<A>, normals: seq<A>)
    requires forall i :: 0 <= i < |indices| ==> Usable(indices[i], positions, texCoords, normals)
    requires i < |indices| && indices[i] !in combos
    requires Deduplicated(indices, i, vertices, combos, newIndices, positions, texCoords, normals)
    ensures Deduplicated(indices, i + 1, vertices + [VertexOf(indices[i], positions, texCoords, normals)], combos + [indices[i]],
                         newIndices + [|vertices| % IndexModulus], positions, texCoords, normals)
  {
    IndexBufferStep(indices, i, combos);
    VerticesOfAppend(combos, indices[i], positions, texCoords, normals);
  }

  /** A corner seen before: no new vertex, and the index of its first occurrence. */
  lemma SeenCorner<A>(indices: seq<Corner>, i: nat, vertices: seq<Vertex<A>>, combos: seq<Corner>, newIndices: seq<u16>,
                      positions: seq<A>, texCoords: seq<A>, normals: seq<A>)
    requires i < |indices| && indices[i] in combos
    requires Deduplicated(indices, i, vertices, combos, newIndices, positions, texCoords, normals)
    ensures Deduplicated(indices, i + 1, vertices, combos, newIndices + [Find(combos, indices[i]) % IndexModulus],
                         positions, texCoords, normals)
  {
    IndexBufferStep(indices, i, combos);
  }

  /** One more corner: where it lands among the distinct corners, and the index stored for it. */
  lemma IndexBufferStep<T>(s: seq<T>, i: nat, combos: seq<T>)
    requires i < |s| && combos == Distinct(s[..i])
    ensures s[i] !in combos ==>
              && Distinct(s[..i + 1]) == combos + [s[i]]
              && IndexBuffer(s[..i + 1]) == IndexBuffer(s[..i]) + [|combos| % IndexModulus]
    ensures s[i] in combos ==>
              && Distinct(s[..i + 1]) == combos
              && IndexBuffer(s[..i + 1]) == IndexBuffer(s[..i]) + [Find(combos, s[i]) % IndexModulus]
  {
    assert s[..i + 1][..i] == s[..i];
    if s[i] !in combos {
      FindNew(combos, s[i]);
    }
  }

  lemma SmallIndex(x: nat)
    requires x < IndexModulus
    ensures x % IndexModulus == x
  {
  }

  /**
   * With at most 65536 distinct corners every stored index addresses a vertex
   * and picks out the corner it replaces.
   */
  lemma IndexBufferSound<T>(indices: seq<T>)
    requires |Distinct(indices)| <= IndexModulus
    ensures forall i :: 0 <= i < |indices| ==>
              IndexBuffer(indices)[i] < |Distinct(indices)| && Distinct(indices)[IndexBuffer(indices)[i]] == indices[i]
  {
    forall i | 0 <= i < |indices|
      ensures IndexBuffer(indices)[i] == Find(Distinct(indices), indices[i]) < |Distinct(indices)|
    {
      IndexBufferAt(indices, i);
      DistinctElements(indices, indices[i]);
      SmallIndex(Find(Distinct(indices), indices[i]));
    }
  }

  /**
   * With more than 65536 distinct corners the 16-bit index wraps: the corner
   * that became vertex 65536 is drawn with vertex 0, a different corner.
   */
  lemma IndexBufferWraps<T>(indices: seq<T>)
    requires |Distinct(indices)| > IndexModulus
    ensures exists i :: 0 <= i < |indices| && Distinct(indices)[IndexBuffer(indices)[i]] != indices[i]
  {
    var d := Distinct(indices);
    var x := d[IndexModulus];
    DistinctElements(indices, x);
    DistinctNoDuplicates(indices);
    var i := Find(indices, x);
    IndexBufferAt(indices, i);
    assert Find(d, x) == IndexModulus;
    assert IndexBuffer(indices)[i] == 0;
    assert d[0] != x;
  }

  /**
   * `load_obj`: the vertex list holds one vertex per distinct corner in order
   * of first use, and the index buffer one 16-bit index per corner read; while
   * there are at most 65536 distinct corners, every corner is drawn with its
   * own vertex.
   */
  method LoadObj<A>(lines: seq<Line<A>>) returns (vertices: seq<Vertex<A>>, newIndices: seq<u16>)
    requires var d := Parsed(lines);
             forall i :: 0 <= i < |d.indices| ==> Usable(d.indices[i], d.positions, d.texCoords, d.normals)
    ensures var d := Parsed(lines);
            && |vertices| == |Distinct(d.indices)|
            && (forall k :: 0 <= k < |vertices| ==>
                  && Usable(Distinct(d.indices)[k], d.positions, d.texCoords, d.normals)
                  && vertices[k] == VertexOf(Distinct(d.indices)[k], d.positions, d.texCoords, d.normals))
            && newIndices == IndexBuffer(d.indices)
    ensures var d := Parsed(lines);
            |Distinct(d.indices)| <= IndexModulus ==>
              forall i :: 0 <= i < |d.indices| ==>
                && newIndices[i] < |vertices|
                && Usable(d.indices[i], d.positions, d.texCoords, d.normals)
                && vertices[newIndices[i]] == VertexOf(d.indices[i], d.positions, d.texCoords, d.normals)
  {
    var positions, texCoords, normals, indices := ParseObj(lines);
    var combos;
    vertices, combos, newIndices := Deduplicate(indices, positions, texCoords, normals);
    VerticesOfEntries(combos, positions, texCoords, normals);
    if |combos| <= IndexModulus {
      IndexBufferSound(indices);
    }
  }
}
