/** The QR image generator: options with their defaults, the call into the
    third-party symbol encoder (kept abstract), and the SVG serialiser that turns
    the encoder's rows of '0'/'1' characters into one path of unit squares. */
module Generator {
  import opened Text

  /** The encoder's error-correction levels; QR_ECLEVEL_M is the default. */
  datatype EcLevel = L | M | Q | H

  /** The options array: each key set (isset) or not. Values are already integers. */
  datatype Options = Options(size: Option<int>, margin: Option<int>, errorCorrection: Option<EcLevel>)

  /** QRcode::text(data, false, level, 1, margin): the module matrix as rows of
      characters, or None when the encoder returns something that is not an array. */
  type Encoder = (string, EcLevel, int) -> Option<seq<string>>

  const DefaultSize: int := 400
  const DefaultMargin: int := 2
  const DefaultLevel: EcLevel := M

  function EffectiveSize(options: Options): int {
    options.size.GetOr(DefaultSize)
  }

  function EffectiveMargin(options: Options): int {
    options.margin.GetOr(DefaultMargin)
  }

  function EffectiveLevel(options: Options): EcLevel {
    options.errorCorrection.GetOr(DefaultLevel)
  }

  /** One dark module: column and row in the matrix. */
  datatype Cell = Cell(col: nat, row: nat)

  /** Row-major order: row ascending, then column ascending. */
  predicate Before(a: Cell, b: Cell) {
    a.row < b.row || (a.row == b.row && a.col < b.col)
  }

  predicate RowMajor(cells: seq<Cell>) {
    forall i, j :: 0 <= i < j < |cells| ==> Before(cells[i], cells[j])
  }

  /** The dark modules among the first n characters of row r. */
  function RowDark(rowData: string, r: nat, n: nat): seq<Cell>
    requires n <= |rowData|
  {
    if n == 0 then []
    else RowDark(rowData, r, n - 1) + (if rowData[n - 1] == '1' then [Cell(n - 1, r)] else [])
  }

  /** The dark modules of the first k rows, in row-major order. */
  function DarkPrefix(matrix: seq<string>, k: nat): seq<Cell>
    requires k <= |matrix|
  {
    if k == 0 then [] else DarkPrefix(matrix, k - 1) + RowDark(matrix[k - 1], k - 1, |matrix[k - 1]|)
  }

  function DarkModules(matrix: seq<string>): seq<Cell> {
    DarkPrefix(matrix, |matrix|)
  }

  /** The number of '1' characters in the matrix. */
  function DarkCount(matrix: seq<string>): nat {
    if matrix == [] then 0 else DarkCount(matrix[..|matrix| - 1]) + CountChar(matrix[|matrix| - 1], '1')
  }

  /** The unit square drawn for the module at (col, row). */
  function Subpath(c: Cell): string {
    "M" + NatToString(c.col) + "," + NatToString(c.row) + "h1v1h-1z"
  }

  /** The path data: the subpaths of the given cells, in order. */
  function PathData(cells: seq<Cell>): string {
    if cells == [] then "" else PathData(cells[..|cells| - 1]) + Subpath(cells[|cells| - 1])
  }

  const XmlDeclaration: string := "<?xml version=\"1.0\" encoding=\"UTF-8\"?>\n"
  const SvgClose: string := "</svg>"
  const Background: string := "<rect width=\"100%\" height=\"100%\" fill=\"#ffffff\"/>\n"
  const ErrorMessage: string := "QR Generation Error"

  function SizeAttributes(size: int): string {
    "width=\"" + IntToString(size) + "\" height=\"" + IntToString(size) + "\""
  }

  function ViewBox(n: nat): string {
    "viewBox=\"0 0 " + NatToString(n) + " " + NatToString(n) + "\""
  }

  const SvgOpen: string := "<svg xmlns=\"http://www.w3.org/2000/svg\" version=\"1.1\" "
  const ShapeRendering: string := "shape-rendering=\"crispEdges\">\n"

  /** The opening <svg ...> tag of a rendered matrix with n rows. */
  function SvgOpenTag(size: int, n: nat): string {
    SvgOpen + SizeAttributes(size) + " " + ViewBox(n) + " " + ShapeRendering
  }

  function PathElement(d: string): string {
    "<path d=\"" + d + "\" fill=\"#000000\"/>\n"
  }

  /** The path element, present only when the path data is non-empty. */
  function PathPart(matrix: seq<string>): string {
    var d := PathData(DarkModules(matrix));
    if d != "" then PathElement(d) else ""
  }

  /** The document render_svg produces for a matrix: header, white background,
      the path element, closing tag. */
  function Svg(size: int, matrix: seq<string>): string {
    XmlDeclaration + SvgOpenTag(size, |matrix|) + Background + PathPart(matrix) + SvgClose
  }

  const ErrorOpen: string := "<svg xmlns=\"http://www.w3.org/2000/svg\" "
  const ErrorBackground: string := ">\n<rect width=\"100%\" height=\"100%\" fill=\"#f0f0f0\"/>\n"
  const TextOpen: string := "<text x=\"50%\" y=\"50%\" text-anchor=\"middle\" fill=\"#666\" font-size=\"14\">"
  const TextClose: string := "</text>\n"

  /** The fixed fallback image of generate_error_svg: the configured width and height, and the error text. */
  function ErrorSvg(size: int): (svg: string)
    ensures Contains(svg, SizeAttributes(size))
    ensures Contains(svg, ErrorMessage)
  {
    var open := ErrorOpen + SizeAttributes(size) + ErrorBackground + TextOpen;
    PartOfFive(XmlDeclaration, open, ErrorMessage, TextClose, SvgClose);
    PartOfFour(ErrorOpen, SizeAttributes(size), ErrorBackground, TextOpen);
    WithinFive(XmlDeclaration, open, ErrorMessage, TextClose, SvgClose, SizeAttributes(size));
    XmlDeclaration + open + ErrorMessage + TextClose + SvgClose
  }

  /** What generate_svg returns for the encoder's answer: the fallback when the
      answer is not an array or is the (falsy) empty array, else the rendering. */
  function Output(qr: Option<seq<string>>, size: int): string {
    if qr.None? || qr.value == [] then ErrorSvg(size) else Svg(size, qr.value)
  }

  predicate EndsWith(s: string, t: string) {
    |t| <= |s| && s[|s| - |t|..] == t
  }

  class QrGenerator {
    const data: string
    const size: int
    const margin: int
    const errorCorrection: EcLevel

    constructor (data: string, options: Options)
      ensures this.data == data
      ensures size == EffectiveSize(options) && margin == EffectiveMargin(options)
      ensures errorCorrection == EffectiveLevel(options)
      ensures options == Options(None, None, None) ==> size == 400 && margin == 2 && errorCorrection == M
    {
      this.data := data;
      this.size := if options.size.Some? then options.size.value else DefaultSize;
      this.margin := if options.margin.Some? then options.margin.value else DefaultMargin;
      this.errorCorrection := if options.errorCorrection.Some? then options.errorCorrection.value else DefaultLevel;
    }

    /** generate_svg: ask the encoder for the matrix, fall back on failure. */
    method GenerateSvg(encode: Encoder) returns (svg: string)
      ensures svg == Output(encode(data, errorCorrection, margin), size)
      ensures XmlDeclaration <= svg && EndsWith(svg, SvgClose)
    {
      var qr := encode(data, errorCorrection, margin);
      if qr.None? || qr.value == [] {
        svg := ErrorSvg(size);
      } else {
        svg := RenderSvg(qr.value);
      }
      OutputIsDocument(qr, size);
    }

    /** render_svg: header, white background, the path of dark modules, closing tag. */
    method RenderSvg(matrix: seq<string>) returns (svg: string)
      ensures svg == Svg(size, matrix)
    {
      var matrixSize := |matrix|;
      var totalSize := size;
      svg := XmlDeclaration;
      svg := svg + SvgOpenTag(totalSize, matrixSize);
      svg := svg + Background;

      var path := BuildPath(matrix);

      if path != "" {
        svg := svg + PathElement(path);
      } else {
        assert svg + "" == svg;
      }
      svg := svg + SvgClose;
    }

    /** The nested row/column loops of render_svg: one subpath per '1', appended
        in row-major order. */
    static method BuildPath(matrix: seq<string>) returns (path: string)
      ensures path == PathData(DarkModules(matrix))
    {
      path := "";
      var row := 0;
      while row < |matrix|
        invariant 0 <= row <= |matrix|
        invariant path == PathData(DarkPrefix(matrix, row))
      {
        var rowData := matrix[row];
        var rowLen := |rowData|;
        var col := 0;
        assert DarkPrefix(matrix, row) + RowDark(rowData, row, 0) == DarkPrefix(matrix, row);
        while col < rowLen
          invariant 0 <= col <= rowLen
          invariant path == PathData(DarkPrefix(matrix, row) + RowDark(rowData, row, col))
        {
          if rowData[col] == '1' {
            path := path + Subpath(Cell(col, row));
            assert DarkPrefix(matrix, row) + RowDark(rowData, row, col + 1)
                == (DarkPrefix(matrix, row) + RowDark(rowData, row, col)) + [Cell(col, row)];
          } else {
            assert RowDark(rowData, row, col + 1) == RowDark(rowData, row, col);
          }
          col := col + 1;
        }
        row := row + 1;
      }
    }

    /** generate($url, $options) == (new QR_Generator($url, $options))->generate_svg() */
    static method Generate(url: string, options: Options, encode: Encoder) returns (svg: string)
      ensures svg == Output(encode(url, EffectiveLevel(options), EffectiveMargin(options)), EffectiveSize(options))
    {
      var generator := new QrGenerator(url, options);
      svg := generator.GenerateSvg(encode);
    }
  }

  // ----- properties of the rendering -----

  lemma Framed(a: string, b: string, c: string, d: string, e: string)
    ensures a <= a + b + c + d + e && EndsWith(a + b + c + d + e, e)
  {
    assert (a + b + c + d + e)[..|a|] == a;
    assert (a + b + c + d + e)[|a + b + c + d + e| - |e|..] == e;
  }

  /** The output is always one SVG document: XML declaration first, </svg> last. */
  lemma OutputIsDocument(qr: Option<seq<string>>, size: int)
    ensures XmlDeclaration <= Output(qr, size)
    ensures EndsWith(Output(qr, size), SvgClose)
  {
    if qr.None? || qr.value == [] {
      Framed(XmlDeclaration, ErrorOpen + SizeAttributes(size) + ErrorBackground + TextOpen, ErrorMessage,
        TextClose, SvgClose);
    } else {
      Framed(XmlDeclaration, SvgOpenTag(size, |qr.value|), Background, PathPart(qr.value), SvgClose);
    }
  }

  /** When the encoder fails or returns the empty array, the fallback image is
      returned: same width and height as configured, showing the error text. */
  lemma FallbackOnEncoderFailure(qr: Option<seq<string>>, size: int)
    requires qr.None? || qr.value == []
    ensures Output(qr, size) == ErrorSvg(size)
    ensures Contains(Output(qr, size), SizeAttributes(size))
    ensures Contains(Output(qr, size), ErrorMessage)
  {
  }

  /** A rendered matrix carries width = height = the configured size and the
      view box "0 0 N N" for N matrix rows. */
  lemma RenderedDimensions(size: int, matrix: seq<string>)
    ensures Contains(Svg(size, matrix), SizeAttributes(size))
    ensures Contains(Svg(size, matrix), ViewBox(|matrix|))
  {
    var n := |matrix|;
    PartsOfSix(SvgOpen, SizeAttributes(size), " ", ViewBox(n), " ", ShapeRendering);
    WithinFive(XmlDeclaration, SvgOpenTag(size, n), Background, PathPart(matrix), SvgClose, SizeAttributes(size));
    WithinFive(XmlDeclaration, SvgOpenTag(size, n), Background, PathPart(matrix), SvgClose, ViewBox(n));
  }

  lemma PartOfFour(a: string, b: string, c: string, d: string)
    ensures Contains(a + b + c + d, b)
  {
    assert a + b + c + d == a + b + (c + d);
    ContainsMiddle(a, b, c + d);
  }

  lemma PartOfFive(a: string, b: string, c: string, d: string, e: string)
    ensures Contains(a + b + c + d + e, c)
  {
    assert a + b + c + d + e == (a + b) + c + (d + e);
    ContainsMiddle(a + b, c, d + e);
  }

  lemma PartsOfSix(a: string, b: string, c: string, d: string, e: string, f: string)
    ensures Contains(a + b + c + d + e + f, b) && Contains(a + b + c + d + e + f, d)
  {
    assert a + b + c + d + e + f == a + b + (c + d + e + f);
    ContainsMiddle(a, b, c + d + e + f);
    assert a + b + c + d + e + f == (a + b + c) + d + (e + f);
    ContainsMiddle(a + b + c, d, e + f);
  }

  lemma WithinFive(a: string, b: string, c: string, d: string, e: string, t: string)
    requires Contains(b, t)
    ensures Contains(a + b + c + d + e, t)
  {
    assert a + b + c + d + e == a + b + (c + d + e);
    ContainsWithin(a, b, c + d + e, t);
  }

  lemma {:induction false} RowDarkFacts(rowData: string, r: nat, n: nat)
    requires n <= |rowData|
    ensures forall c :: c in RowDark(rowData, r, n) <==> c.row == r && c.col < n && rowData[c.col] == '1'
    ensures RowMajor(RowDark(rowData, r, n))
    ensures |RowDark(rowData, r, n)| == CountChar(rowData[..n], '1')
  {
    if n > 0 {
      RowDarkFacts(rowData, r, n - 1);
      assert rowData[..n][..n - 1] == rowData[..n - 1];
    }
  }

  lemma {:induction false} DarkPrefixFacts(matrix: seq<string>, k: nat)
    requires k <= |matrix|
    ensures forall c :: c in DarkPrefix(matrix, k) <==>
      c.row < k && c.col < |matrix[c.row]| && matrix[c.row][c.col] == '1'
    ensures RowMajor(DarkPrefix(matrix, k))
    ensures |DarkPrefix(matrix, k)| == DarkCount(matrix[..k])
  {
    if k > 0 {
      DarkPrefixFacts(matrix, k - 1);
      var rowData := matrix[k - 1];
      RowDarkFacts(rowData, k - 1, |rowData|);
      var a, b := DarkPrefix(matrix, k - 1), RowDark(rowData, k - 1, |rowData|);
      forall i, j | 0 <= i < j < |a + b| ensures Before((a + b)[i], (a + b)[j]) {
        if j < |a| {
        } else if i >= |a| {
          assert (a + b)[i] == b[i - |a|] && (a + b)[j] == b[j - |a|];
        } else {
          assert a[i] in a && b[j - |a|] in b;
        }
      }
      assert matrix[..k][..k - 1] == matrix[..k - 1];
      assert rowData[..|rowData|] == rowData;
    }
  }

  /** Exactly the '1' characters give subpaths: a cell is drawn iff its
      character is '1', each at most once (the order is strict), and there are
      as many subpaths as '1' characters. */
  lemma DarkModulesExact(matrix: seq<string>)
    ensures forall c :: c in DarkModules(matrix) <==>
      c.row < |matrix| && c.col < |matrix[c.row]| && matrix[c.row][c.col] == '1'
    ensures RowMajor(DarkModules(matrix))
    ensures |DarkModules(matrix)| == DarkCount(matrix)
  {
    DarkPrefixFacts(matrix, |matrix|);
    assert matrix[..|matrix|] == matrix;
  }

  /** The path is empty exactly when there is no dark module. */
  lemma {:induction false} PathDataEmpty(cells: seq<Cell>)
    ensures PathData(cells) == "" <==> cells == []
  {
    if cells != [] {
      assert |Subpath(cells[|cells| - 1])| > 0;
    }
  }

  /** The <path> element appears iff some character of the matrix is '1';
      otherwise only the white background is drawn. */
  lemma PathElementIffDark(matrix: seq<string>)
    ensures (exists r, c :: 0 <= r < |matrix| && 0 <= c < |matrix[r]| && matrix[r][c] == '1')
      <==> PathPart(matrix) != ""
  {
    DarkModulesExact(matrix);
    PathDataEmpty(DarkModules(matrix));
    if PathData(DarkModules(matrix)) != "" {
      var x := DarkModules(matrix)[0];
      assert x in DarkModules(matrix);
      assert |PathElement(PathData(DarkModules(matrix)))| > 0;
    } else {
      forall r, c | 0 <= r < |matrix| && 0 <= c < |matrix[r]| ensures matrix[r][c] != '1' {
        assert Cell(c, r) !in DarkModules(matrix);
      }
    }
  }
}
