/**
 * The level file format: one `Planet <x> <y> <radius>` line per object. The parser is
 * strict: every line must parse, or the whole level is rejected with the first error.
 *
 * Parsing a number (`str::parse::<f32>`) is a parameter `parseNumber`, which gives
 * `None` for text that is not a number; rendering one (`to_string`) is a parameter
 * `format`.
 */
module LevelLoader {
  import opened Wrappers
  import opened Vectors
  import opened Strings

  /** `LevelAssetObject`: the only kind of object a level holds. */
  datatype LevelAssetObject = PlanetObject(position: Vec2, radius: real)

  /** `LevelAsset`. */
  datatype LevelAsset = LevelAsset(objects: seq<LevelAssetObject>)

  /** Why a line was rejected: not a planet line, or a field that is not a number. */
  datatype LoadError = InvalidLine | InvalidNumber(text: string)

  const Keyword: string := "Planet"

  /**
   * `parse_line`: the trimmed line must start with `"Planet "` and split on single
   * spaces into exactly four fields; the last three are x, y and the radius, parsed in
   * that order.
   */
  function ParseLine(line: string, parseNumber: string -> Option<real>): (r: Result<LevelAssetObject, LoadError>)
    ensures !StartsWith(Trim(line), Keyword + " ") ==> r == Err(InvalidLine)
    ensures |Split(Trim(line), ' ')| != 4 ==> r == Err(InvalidLine)
    ensures r.Ok? ==>
      var parts := Split(Trim(line), ' ');
      && |parts| == 4 && parts[0] == Keyword
      && Trim(line) == Join(parts, ' ')
      && parseNumber(parts[1]) == Some(r.value.position.x)
      && parseNumber(parts[2]) == Some(r.value.position.y)
      && parseNumber(parts[3]) == Some(r.value.radius)
    ensures StartsWith(Trim(line), Keyword + " ") && |Split(Trim(line), ' ')| == 4 ==>
      var parts := Split(Trim(line), ' ');
      && (parseNumber(parts[1]).Some? && parseNumber(parts[2]).Some? && parseNumber(parts[3]).Some? ==>
            r == Ok(PlanetObject(Vec2(parseNumber(parts[1]).value, parseNumber(parts[2]).value),
                                 parseNumber(parts[3]).value)))
      && (r.Err? ==> exists k :: FirstBadField(parts, parseNumber, k) && r.error == InvalidNumber(parts[k]))
  {
    var t := Trim(line);
    if !StartsWith(t, Keyword + " ") then Err(InvalidLine)
    else
      var parts := Split(t, ' ');
      if |parts| != 4 then Err(InvalidLine)
      else
        FirstFieldIsKeyword(t, parts);
        ParseFields(parts, parseNumber)
  }

  /** Field `k` of the line is the first one after the keyword that is not a number. */
  predicate FirstBadField(parts: seq<string>, parseNumber: string -> Option<real>, k: int)
  {
    && 0 < k < |parts|
    && parseNumber(parts[k]).None?
    && forall j :: 0 < j < k ==> parseNumber(parts[j]).Some?
  }

  /**
   * The fields of a planet line after the keyword: x, y and the radius, parsed in that
   * order; the first one that is not a number is the error.
   */
  function ParseFields(parts: seq<string>, parseNumber: string -> Option<real>): (r: Result<LevelAssetObject, LoadError>)
    requires |parts| == 4
    ensures parseNumber(parts[1]).Some? && parseNumber(parts[2]).Some? && parseNumber(parts[3]).Some? ==>
      r == Ok(PlanetObject(Vec2(parseNumber(parts[1]).value, parseNumber(parts[2]).value),
                           parseNumber(parts[3]).value))
    ensures r.Err? ==> exists k :: FirstBadField(parts, parseNumber, k) && r.error == InvalidNumber(parts[k])
  {
    match (parseNumber(parts[1]), parseNumber(parts[2]), parseNumber(parts[3]))
    case (None, _, _) => Err(InvalidNumber(parts[1]))
    case (Some(_), None, _) => Err(InvalidNumber(parts[2]))
    case (Some(_), Some(_), None) => Err(InvalidNumber(parts[3]))
    case (Some(x), Some(y), Some(radius)) => Ok(PlanetObject(Vec2(x, y), radius))
  }

  /** A string starting with `"Planet "` splits on spaces into `"Planet"` and the rest. */
  lemma FirstFieldIsKeyword(t: string, parts: seq<string>)
    requires StartsWith(t, Keyword + " ")
    requires parts == Split(t, ' ')
    ensures parts[0] == Keyword
  {
    var rest := t[|Keyword| + 1..];
    assert t == Keyword + [' '] + rest;
    SplitFirst(Keyword, rest, ' ');
  }

  /**
   * `parse_level`: the lines of the text (`str::lines`), each parsed; the level holds one
   * object per line, in order, when every line parses.
   */
  function ParseLevel(source: string, parseNumber: string -> Option<real>): (r: Result<LevelAsset, LoadError>)
    ensures var lines := Lines(source);
      r.Ok? <==> forall i :: 0 <= i < |lines| ==> ParseLine(lines[i], parseNumber).Ok?
  {
    var lines := Lines(source);
    var results := ParseLines(lines, parseNumber);
    match Collect(results)
    case Ok(objects) => Ok(LevelAsset(objects))
    case Err(e) => Err(e)
  }

  /** Every line parsed on its own, in order. */
  function ParseLines(lines: seq<string>, parseNumber: string -> Option<real>): (rs: seq<Result<LevelAssetObject, LoadError>>)
    ensures |rs| == |lines|
    ensures forall i :: 0 <= i < |lines| ==> rs[i] == ParseLine(lines[i], parseNumber)
  {
    seq(|lines|, i requires 0 <= i < |lines| => ParseLine(lines[i], parseNumber))
  }

  /** On success the level holds one object per line: the object that line parses to. */
  lemma ParseLevelObjects(source: string, parseNumber: string -> Option<real>)
    requires ParseLevel(source, parseNumber).Ok?
    ensures var lines := Lines(source);
      && |ParseLevel(source, parseNumber).value.objects| == |lines|
      && forall i :: 0 <= i < |lines| ==>
           ParseLevel(source, parseNumber).value.objects[i] == ParseLine(lines[i], parseNumber).value
  {
    var lines := Lines(source);
    var results := ParseLines(lines, parseNumber);
    var objects := ParseLevel(source, parseNumber).value.objects;
    assert Collect(results).Ok? && objects == Collect(results).value;
    forall i | 0 <= i < |lines|
      ensures objects[i] == ParseLine(lines[i], parseNumber).value
    {
      assert objects[i] == results[i].value;
    }
  }

  /** On failure the error is that of the first line that does not parse. */
  lemma ParseLevelFirstError(source: string, parseNumber: string -> Option<real>)
    requires ParseLevel(source, parseNumber).Err?
    ensures var lines := Lines(source);
      exists i :: (0 <= i < |lines| && ParseLine(lines[i], parseNumber) == Err(ParseLevel(source, parseNumber).error)
        && forall j :: 0 <= j < i ==> ParseLine(lines[j], parseNumber).Ok?)
  {
    var lines := Lines(source);
    var results := ParseLines(lines, parseNumber);
    var e := ParseLevel(source, parseNumber).error;
    assert Collect(results) == Err(e);
    var i :| 0 <= i < |results| && results[i] == Err(e) && forall j :: 0 <= j < i ==> results[j].Ok?;
    assert ParseLine(lines[i], parseNumber) == Err(e);
    assert forall j :: 0 <= j < i ==> ParseLine(lines[j], parseNumber).Ok? by {
      forall j | 0 <= j < i ensures ParseLine(lines[j], parseNumber).Ok? {
        assert results[j] == ParseLine(lines[j], parseNumber);
      }
    }
  }

  /**
   * `str::lines` as the parser sees it: the pieces between line feeds, without a final
   * empty piece. Rust also drops a `'\r'` before each line feed; every line is trimmed
   * before it is looked at, so that makes no difference here and is not modelled.
   */
  function Lines(source: string): seq<string>
  {
    SplitTerminator(source, '\n')
  }

  /**
   * `collect::<Result<Vec<_>, _>>()`: every value when all results are `Ok`, and
   * otherwise the error of the first `Err`.
   */
  function Collect<T(==), E(==)>(results: seq<Result<T, E>>): (r: Result<seq<T>, E>)
    ensures r.Ok? <==> forall i :: 0 <= i < |results| ==> results[i].Ok?
    ensures r.Ok? ==> |r.value| == |results|
    ensures r.Ok? ==> forall i :: 0 <= i < |results| ==> r.value[i] == results[i].value
    ensures r.Err? ==> exists i :: (0 <= i < |results| && results[i] == Err(r.error)
      && forall j :: 0 <= j < i ==> results[j].Ok?)
  {
    if |results| == 0 then Ok([])
    else
      var rest := Collect(results[1..]);
      assert forall i :: 1 <= i < |results| ==> results[1..][i - 1] == results[i];
      match results[0]
      case Err(e) => Err(e)
      case Ok(v) =>
        match rest
        case Err(e) =>
          var i :| (0 <= i < |results[1..]| && results[1..][i] == Err(e)
            && forall j :: 0 <= j < i ==> results[1..][j].Ok?);
          assert results[i + 1] == Err(e);
          assert forall j :: 0 <= j < i + 1 ==> results[j].Ok? by {
            forall j | 0 <= j < i + 1 ensures results[j].Ok? {
              if 0 < j { assert results[j] == results[1..][j - 1]; }
            }
          }
          Err(e)
        case Ok(values) => Ok([v] + values)
  }

  /**
   * The numbers `format` renders for `parseNumber` to read back: a non-empty string
   * without whitespace that parses to the number itself. Rust's `f32` `to_string` and
   * `parse` behave this way for finite values.
   */
  predicate FormatsCleanly(format: real -> string, parseNumber: string -> Option<real>, v: real)
  {
    && |format(v)| != 0
    && NoWhitespace(format(v))
    && parseNumber(format(v)) == Some(v)
  }

  /** The line a level file holds for an object. */
  function FormatLine(o: LevelAssetObject, format: real -> string): string
  {
    Join([Keyword, format(o.position.x), format(o.position.y), format(o.radius)], ' ')
  }

  /** A formatted line parses back to the object it was made from. */
  lemma {:induction false} ParseFormatLine(o: LevelAssetObject, format: real -> string, parseNumber: string -> Option<real>)
    requires FormatsCleanly(format, parseNumber, o.position.x)
    requires FormatsCleanly(format, parseNumber, o.position.y)
    requires FormatsCleanly(format, parseNumber, o.radius)
    ensures ParseLine(FormatLine(o, format), parseNumber) == Ok(o)
  {
    var fx, fy, fr := format(o.position.x), format(o.position.y), format(o.radius);
    var parts := [Keyword, fx, fy, fr];
    var line := FormatLine(o, format);
    forall k | 0 <= k < |parts| ensures ' ' !in parts[k] {
      if k != 0 {
        NoChar(parts[k], ' ');
      }
    }
    CleanPlanetLine(parts);
  }

  /**
   * A line made of `"Planet"` and space-free fields, the last one ending in a
   * non-whitespace character, is its own trim, starts with `"Planet "`, and splits back
   * into those fields.
   */
  lemma CleanPlanetLine(parts: seq<string>)
    requires 2 <= |parts| && parts[0] == Keyword
    requires forall k :: 0 <= k < |parts| ==> ' ' !in parts[k]
    requires |parts[|parts| - 1]| != 0 && !IsWhitespace(parts[|parts| - 1][|parts[|parts| - 1]| - 1])
    ensures Trim(Join(parts, ' ')) == Join(parts, ' ')
    ensures StartsWith(Join(parts, ' '), Keyword + " ")
    ensures Split(Trim(Join(parts, ' ')), ' ') == parts
  {
    var line := Join(parts, ' ');
    JoinEnds(parts, ' ');
    TrimClean(line);
    assert line == Keyword + [' '] + Join(parts[1..], ' ');
    assert line[..|Keyword| + 1] == Keyword + " ";
    SplitJoin(parts, ' ');
  }

  /** A string without whitespace holds no whitespace character. */
  lemma NoChar(s: string, c: char)
    requires NoWhitespace(s) && IsWhitespace(c)
    ensures c !in s
  {
  }

  /** A level file: every object's line, each followed by a line feed. */
  function FormatLevel(objects: seq<LevelAssetObject>, format: real -> string): string
  {
    Terminated(seq(|objects|, i requires 0 <= i < |objects| => FormatLine(objects[i], format)), '\n')
  }

  /** Every written level loads back to the same objects, in the same order. */
  lemma ParseFormatLevel(objects: seq<LevelAssetObject>, format: real -> string, parseNumber: string -> Option<real>)
    requires forall i :: 0 <= i < |objects| ==>
      && FormatsCleanly(format, parseNumber, objects[i].position.x)
      && FormatsCleanly(format, parseNumber, objects[i].position.y)
      && FormatsCleanly(format, parseNumber, objects[i].radius)
    ensures ParseLevel(FormatLevel(objects, format), parseNumber) == Ok(LevelAsset(objects))
  {
    var lines := seq(|objects|, i requires 0 <= i < |objects| => FormatLine(objects[i], format));
    forall k | 0 <= k < |lines| ensures '\n' !in lines[k] {
      FormattedLineIsOneLine(objects[k], format, parseNumber);
    }
    SplitTerminatorTerminated(lines, '\n');
    forall i | 0 <= i < |lines| ensures ParseLine(lines[i], parseNumber) == Ok(objects[i]) {
      ParseFormatLine(objects[i], format, parseNumber);
    }
    var source := FormatLevel(objects, format);
    assert Lines(source) == lines;
    ParseLevelObjects(source, parseNumber);
    assert ParseLevel(source, parseNumber).value.objects == objects;
  }

  /** A formatted line holds no line feed. */
  lemma FormattedLineIsOneLine(o: LevelAssetObject, format: real -> string, parseNumber: string -> Option<real>)
    requires FormatsCleanly(format, parseNumber, o.position.x)
    requires FormatsCleanly(format, parseNumber, o.position.y)
    requires FormatsCleanly(format, parseNumber, o.radius)
    ensures '\n' !in FormatLine(o, format)
  {
    var parts := [Keyword, format(o.position.x), format(o.position.y), format(o.radius)];
    forall k | 0 <= k < |parts| ensures '\n' !in parts[k] {
      if k != 0 {
        NoChar(parts[k], '\n');
      }
    }
    JoinAvoids(parts, ' ', '\n');
  }

  /** A line with nothing but whitespace, such as an empty line, is rejected. */
  lemma BlankLineRejected(line: string, parseNumber: string -> Option<real>)
    requires forall i :: 0 <= i < |line| ==> IsWhitespace(line[i])
    ensures ParseLine(line, parseNumber) == Err(InvalidLine)
  {
    TrimRemovesOnlyWhitespace(line);
  }

  /** A blank line anywhere among the lines rejects the whole level. */
  lemma BlankLineRejectsLevel(source: string, k: nat, parseNumber: string -> Option<real>)
    requires k < |Lines(source)|
    requires forall i :: 0 <= i < |Lines(source)[k]| ==> IsWhitespace(Lines(source)[k][i])
    ensures ParseLevel(source, parseNumber).Err?
  {
    BlankLineRejected(Lines(source)[k], parseNumber);
  }

  /** Two spaces between fields give an empty field, so the line has too many fields. */
  lemma DoubleSpaceRejected(a: string, b: string, c: string, parseNumber: string -> Option<real>)
    requires ' ' !in a && ' ' !in b && ' ' !in c
    requires |c| != 0 && !IsWhitespace(c[|c| - 1])
    ensures ParseLine(Join([Keyword, "", a, b, c], ' '), parseNumber) == Err(InvalidLine)
  {
    CleanPlanetLine([Keyword, "", a, b, c]);
  }
}
