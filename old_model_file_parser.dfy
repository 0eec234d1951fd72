// src/models/model_file_parser.rs: the older `.model` parser. The section
// rules, the one-character fields and the strata rules are the same as in
// the model crate's parser; the differences are the `center` keys, the
// stricter row syntax (exactly one `=`, contents in single quotes only) and
// the appearance, which is stored even when empty.
module OldModelFileParser {
  import opened Wrappers
  import opened Text
  import opened ModelErrors
  import ModelFileParser
  import EngineErrors

  /// `ModelDataBuilder` of the older parser.
  datatype ModelDataBuilder = ModelDataBuilder(
    center: Option<char>,
    centerReplacement: Option<char>,
    air: Option<char>,
    name: Option<string>,
    strata: Option<nat>,
    appearance: Option<string>,
    hitboxDimensions: Option<string>)

  const EmptyBuilder := ModelDataBuilder(None, None, None, None, None, None, None)

  datatype SkinField = CenterField | CenterReplacementField | AirField | NameField | StrataField

  function SkinFieldOf(key: string): Option<SkinField>
  {
    if key == "center" then Some(CenterField)
    else if key == "center_replacement" then Some(CenterReplacementField)
    else if key == "air" then Some(AirField)
    else if key == "name" then Some(NameField)
    else if key == "strata" then Some(StrataField)
    else None
  }

  /// The key and contents of a `skin` row: the row must split on `=` into
  /// exactly two pieces, and the contents are the text between the first
  /// two `'` of the second piece.
  function RowParts(row: string, lineNumber: nat): (r: Result<(string, string), ModelCreationError>)
    ensures r.Err? ==> r.error == InvalidSyntax(lineNumber)
    ensures r.Ok? <==> |Split(row, '=')| == 2 && '\'' in Split(row, '=')[1]
    ensures r.Ok? ==> r.value.0 == Split(row, '=')[0] && '=' !in r.value.1 && '\'' !in r.value.1
  {
    var pieces := Split(row, '=');
    if |pieces| != 2 then Err(InvalidSyntax(lineNumber))
    else
      match SecondPiece(pieces[1], '\'')
      case None => Err(InvalidSyntax(lineNumber))
      case Some(contents) =>
        assert forall x :: x in contents ==> x in pieces[1] by {
          SecondPieceWithin(pieces[1], '\'');
        }
        Ok((pieces[0], contents))
  }

  /// The second piece of a split holds only characters of the string.
  lemma SecondPieceWithin(s: string, c: char)
    requires SecondPiece(s, c).Some?
    ensures forall x :: x in SecondPiece(s, c).value ==> x in s
  {
    SplitPiecesWithin(s, c);
  }

  lemma {:induction false} SplitPiecesWithin(s: string, c: char)
    ensures forall k, x :: 0 <= k < |Split(s, c)| && x in Split(s, c)[k] ==> x in s
  {
    if s != [] {
      SplitPiecesWithin(s[1..], c);
      assert forall x :: x in s[1..] ==> x in s;
    }
  }

  function StoreField(b: ModelDataBuilder, field: SkinField, contents: string,
                      lineNumber: nat): (r: Result<ModelDataBuilder, ModelCreationError>)
    ensures r.Err? ==> ModelFileParser.ErrorLine(r.error) == Some(lineNumber) || r.error.InvalidStrataRange?
    ensures field.CenterField? ==> (r.Ok? <==> ModelFileParser.ContentsToChar(contents, lineNumber).Ok?)
                                   && (r.Ok? ==> r.value == b.(center := Some(contents[0])))
    ensures field.CenterReplacementField? ==> (r.Ok? <==> ModelFileParser.ContentsToChar(contents, lineNumber).Ok?)
                                              && (r.Ok? ==> r.value == b.(centerReplacement := Some(contents[0])))
    ensures field.AirField? ==> (r.Ok? <==> ModelFileParser.ContentsToChar(contents, lineNumber).Ok?)
                                && (r.Ok? ==> r.value == b.(air := Some(contents[0])))
    ensures field.NameField? ==> (r.Ok? <==> contents != [])
                                 && (r.Ok? ==> r.value == b.(name := Some(contents)))
    ensures field.StrataField? ==> (r.Ok? <==> ModelFileParser.ParseStrata(contents, lineNumber).Ok?)
                                   && (r.Ok? ==> r.value == b.(strata := Some(ModelFileParser.ParseStrata(contents, lineNumber).value)))
  {
    match field
    case CenterField =>
      (match ModelFileParser.ContentsToChar(contents, lineNumber)
       case Err(e) => Err(e)
       case Ok(c) => Ok(b.(center := Some(c))))
    case CenterReplacementField =>
      (match ModelFileParser.ContentsToChar(contents, lineNumber)
       case Err(e) => Err(e)
       case Ok(c) => Ok(b.(centerReplacement := Some(c))))
    case AirField =>
      (match ModelFileParser.ContentsToChar(contents, lineNumber)
       case Err(e) => Err(e)
       case Ok(c) => Ok(b.(air := Some(c))))
    case NameField =>
      if contents == [] then Err(InvalidStringSizeAtLine(lineNumber)) else Ok(b.(name := Some(contents)))
    case StrataField =>
      (match ModelFileParser.ParseStrata(contents, lineNumber)
       case Err(e) => Err(e)
       case Ok(n) => Ok(b.(strata := Some(n))))
  }

  /// `skin_checks` of the older parser.
  function SkinChecks(b: ModelDataBuilder, row: string, lineNumber: nat): (r: Result<ModelDataBuilder, ModelCreationError>)
    ensures r.Err? ==> ModelFileParser.ErrorLine(r.error) == Some(lineNumber) || r.error.InvalidStrataRange?
    ensures RowParts(row, lineNumber).Err? ==> r == Err(InvalidSyntax(lineNumber))
    ensures RowParts(row, lineNumber).Ok? && SkinFieldOf(Trim(Lower(RowParts(row, lineNumber).value.0))).None?
            ==> r == Err(InvalidSyntax(lineNumber))
  {
    match RowParts(row, lineNumber)
    case Err(e) => Err(e)
    case Ok((dataType, contents)) =>
      match SkinFieldOf(Trim(Lower(dataType)))
      case None => Err(InvalidSyntax(lineNumber))
      case Some(field) => StoreField(b, field, contents, lineNumber)
  }

  datatype ParserState = ParserState(
    builder: ModelDataBuilder,
    section: ModelFileParser.Section,
    appearanceRows: seq<string>,
    hitboxRows: seq<string>)

  const InitialState := ParserState(EmptyBuilder, ModelFileParser.Unknown, [], [])

  /// The effect of one line on the parser state; the section rules are the
  /// model crate's.
  function Step(st: ParserState, line: string, lineNumber: nat): Result<ParserState, EngineErrors.ModelError>
  {
    if ModelFileParser.IsSeparator(line) then Ok(st.(section := ModelFileParser.Unknown))
    else if ModelFileParser.HeaderSection(line).Some? then Ok(st.(section := ModelFileParser.HeaderSection(line).value))
    else if ModelFileParser.IsComment(line) then Ok(st)
    else
      match st.section
      case Skin =>
        (match SkinChecks(st.builder, line, lineNumber)
         case Err(e) => Err(EngineErrors.ModelCreationError(e))
         case Ok(b) => Ok(st.(builder := b)))
      case Appearance => Ok(st.(appearanceRows := st.appearanceRows + [line]))
      case HitboxDimensions => Ok(st.(hitboxRows := st.hitboxRows + [line]))
      case Unknown => Ok(st)
  }

  function ParseLines(lines: seq<string>): Result<ParserState, EngineErrors.ModelError>
  {
    if lines == [] then Ok(InitialState)
    else
      match ParseLines(lines[..|lines| - 1])
      case Err(e) => Err(e)
      case Ok(st) => Step(st, lines[|lines| - 1], |lines|)
  }

  /// Unlike the model crate's parser, both joins are stored, even empty.
  function Finish(st: ParserState): (b: ModelDataBuilder)
    ensures b.appearance == Some(Join(st.appearanceRows, "\n"))
    ensures b.hitboxDimensions == Some(Join(st.hitboxRows, "\n"))
    ensures b.(appearance := st.builder.appearance, hitboxDimensions := st.builder.hitboxDimensions) == st.builder
  {
    st.builder.(appearance := Some(Join(st.appearanceRows, "\n")),
                hitboxDimensions := Some(Join(st.hitboxRows, "\n")))
  }

  /// `parse_rows` of the older parser.
  method ParseRows(lines: seq<string>) returns (r: Result<ModelDataBuilder, EngineErrors.ModelError>)
    ensures r.Err? <==> ParseLines(lines).Err?
    ensures r.Err? ==> r.error == ParseLines(lines).error
    ensures r.Ok? ==> r.value == Finish(ParseLines(lines).value)
  {
    var st := InitialState;
    var i := 0;
    while i < |lines|
      invariant 0 <= i <= |lines|
      invariant ParseLines(lines[..i]) == Ok(st)
    {
      PrefixStep(lines, i);
      var next := Step(st, lines[i], i + 1);
      if next.Err? {
        PrefixErrorPropagates(lines, i + 1);
        return Err(next.error);
      }
      st := next.value;
      i := i + 1;
    }
    assert lines[..i] == lines;
    r := Ok(Finish(st));
  }

  /// The prefix one line longer is one more `Step`.
  lemma PrefixStep(lines: seq<string>, i: nat)
    requires i < |lines| && ParseLines(lines[..i]).Ok?
    ensures ParseLines(lines[..i + 1]) == Step(ParseLines(lines[..i]).value, lines[i], i + 1)
  {
    assert lines[..i + 1][..i] == lines[..i];
  }

  lemma {:induction false} PrefixErrorPropagates(lines: seq<string>, k: nat)
    requires k <= |lines|
    requires ParseLines(lines[..k]).Err?
    ensures ParseLines(lines) == ParseLines(lines[..k])
    decreases |lines| - k
  {
    if k < |lines| {
      assert lines[..k + 1][..k] == lines[..k];
      PrefixErrorPropagates(lines, k + 1);
    } else {
      assert lines[..k] == lines;
    }
  }

  const CenterCharacterName: string := "Center Character"
  const CenterReplacementName: string := "Center Replacement Character"
  const HitboxDimensionsName: string := "Hitbox Dimensions"

  /// The required fields' names, in the order the older
  /// `check_if_all_data_exists` tests them.
  const RequiredFields: seq<string> := CharacterFields + IdentityFields + ShapeFields
  const CharacterFields: seq<string> := [CenterCharacterName, CenterReplacementName, ModelFileParser.AirCharacterName]
  const IdentityFields: seq<string> := [ModelFileParser.AssignedNameName, ModelFileParser.StrataName]
  const ShapeFields: seq<string> := [ModelFileParser.AppearanceName, HitboxDimensionsName]

  /// The missing required fields in the order the older parser reports them;
  /// here the hitbox rows are required too. Each name is listed exactly when
  /// its field is missing, and the names keep the order of `RequiredFields`.
  function MissingFields(b: ModelDataBuilder): (r: seq<string>)
    ensures CenterCharacterName in r <==> b.center.None?
    ensures CenterReplacementName in r <==> b.centerReplacement.None?
    ensures ModelFileParser.AirCharacterName in r <==> b.air.None?
    ensures ModelFileParser.AssignedNameName in r <==> b.name.None?
    ensures ModelFileParser.StrataName in r <==> b.strata.None?
    ensures ModelFileParser.AppearanceName in r <==> b.appearance.None?
    ensures HitboxDimensionsName in r <==> b.hitboxDimensions.None?
    ensures ModelFileParser.IsSubsequence(r, RequiredFields) && |r| <= |RequiredFields|
    ensures r == [] <==> b.center.Some? && b.centerReplacement.Some? && b.air.Some?
                         && b.name.Some? && b.strata.Some? && b.appearance.Some? && b.hitboxDimensions.Some?
  {
    ModelFileParser.SubsequenceAppend(MissingCharacters(b), CharacterFields, MissingIdentity(b), IdentityFields);
    ModelFileParser.SubsequenceAppend(MissingCharacters(b) + MissingIdentity(b), CharacterFields + IdentityFields,
                                      MissingShapes(b), ShapeFields);
    ModelFileParser.SubsequenceLength(MissingCharacters(b) + MissingIdentity(b) + MissingShapes(b), RequiredFields);
    MissingCharacters(b) + MissingIdentity(b) + MissingShapes(b)
  }

  /// The missing center, center replacement and air characters, each listed
  /// exactly when missing, in the source's order.
  function MissingCharacters(b: ModelDataBuilder): (r: seq<string>)
    ensures CenterCharacterName in r <==> b.center.None?
    ensures CenterReplacementName in r <==> b.centerReplacement.None?
    ensures ModelFileParser.AirCharacterName in r <==> b.air.None?
    ensures ModelFileParser.IsSubsequence(r, CharacterFields)
  {
    var r := ModelFileParser.NameIf(b.center.None?, CenterCharacterName)
             + (ModelFileParser.NameIf(b.centerReplacement.None?, CenterReplacementName)
                + ModelFileParser.NameIf(b.air.None?, ModelFileParser.AirCharacterName));
    ModelFileParser.ThreeInOrder(b.center.None?, CenterCharacterName, b.centerReplacement.None?, CenterReplacementName,
                                 b.air.None?, ModelFileParser.AirCharacterName);
    r
  }

  /// The missing name and strata, each listed exactly when missing, in the
  /// source's order.
  function MissingIdentity(b: ModelDataBuilder): (r: seq<string>)
    ensures ModelFileParser.AssignedNameName in r <==> b.name.None?
    ensures ModelFileParser.StrataName in r <==> b.strata.None?
    ensures ModelFileParser.IsSubsequence(r, IdentityFields)
  {
    TwoInOrder(b.name.None?, ModelFileParser.AssignedNameName, b.strata.None?, ModelFileParser.StrataName);
    ModelFileParser.NameIf(b.name.None?, ModelFileParser.AssignedNameName)
    + ModelFileParser.NameIf(b.strata.None?, ModelFileParser.StrataName)
  }

  /// The missing appearance and hitbox rows, each listed exactly when
  /// missing, in the source's order.
  function MissingShapes(b: ModelDataBuilder): (r: seq<string>)
    ensures ModelFileParser.AppearanceName in r <==> b.appearance.None?
    ensures HitboxDimensionsName in r <==> b.hitboxDimensions.None?
    ensures ModelFileParser.IsSubsequence(r, ShapeFields)
  {
    TwoInOrder(b.appearance.None?, ModelFileParser.AppearanceName, b.hitboxDimensions.None?, HitboxDimensionsName);
    ModelFileParser.NameIf(b.appearance.None?, ModelFileParser.AppearanceName)
    + ModelFileParser.NameIf(b.hitboxDimensions.None?, HitboxDimensionsName)
  }

  /// Two names, each kept when its flag holds, are taken in order from the
  /// list of the two.
  lemma TwoInOrder(p: bool, x: string, q: bool, y: string)
    ensures ModelFileParser.IsSubsequence(ModelFileParser.NameIf(p, x) + ModelFileParser.NameIf(q, y), [x, y])
  {
    assert ModelFileParser.IsSubsequence([], []);
    ModelFileParser.SubsequenceCons(q, y, [], []);
    assert ModelFileParser.NameIf(q, y) + [] == ModelFileParser.NameIf(q, y) && [y] + [] == [y];
    ModelFileParser.SubsequenceCons(p, x, ModelFileParser.NameIf(q, y), [y]);
    assert [x] + [y] == [x, y];
  }

  /// `check_if_all_data_exists` of the older parser.
  method CheckIfAllDataExists(b: ModelDataBuilder) returns (r: Result<Unit, ModelCreationError>)
    ensures r.Ok? <==> MissingFields(b) == []
    ensures r.Err? ==> r.error == MissingData(MissingFields(b))
  {
    var errorList: seq<string> := [];
    if b.center.None? {
      errorList := errorList + [CenterCharacterName];
    }
    if b.centerReplacement.None? {
      errorList := errorList + [CenterReplacementName];
    }
    if b.air.None? {
      errorList := errorList + [ModelFileParser.AirCharacterName];
    }
    assert errorList == MissingCharacters(b);
    var identity: seq<string> := [];
    if b.name.None? {
      identity := identity + [ModelFileParser.AssignedNameName];
    }
    if b.strata.None? {
      identity := identity + [ModelFileParser.StrataName];
    }
    assert identity == MissingIdentity(b);
    errorList := errorList + identity;
    var shapes: seq<string> := [];
    if b.appearance.None? {
      shapes := shapes + [ModelFileParser.AppearanceName];
    }
    if b.hitboxDimensions.None? {
      shapes := shapes + [HitboxDimensionsName];
    }
    assert shapes == MissingShapes(b);
    errorList := errorList + shapes;
    if errorList == [] {
      r := Ok(Unit);
    } else {
      r := Err(MissingData(errorList));
    }
  }

  /// `parse` up to the builder: empty contents are refused, then the lines
  /// are parsed and every required field must be present. Building the
  /// model is not part of this model.
  method Parse(contents: string) returns (r: Result<ModelDataBuilder, EngineErrors.ModelError>)
    ensures contents == [] ==> r == Err(EngineErrors.ModelCreationError(ModelFileIsEmpty))
    ensures contents != [] && ParseLines(Split(contents, '\n')).Err? ==>
              r == Err(ParseLines(Split(contents, '\n')).error)
    ensures r.Ok? ==> contents != [] && ParseLines(Split(contents, '\n')).Ok?
                      && r.value == Finish(ParseLines(Split(contents, '\n')).value)
                      && MissingFields(r.value) == []
    ensures contents != [] && ParseLines(Split(contents, '\n')).Ok? ==>
              (r.Ok? <==> MissingFields(Finish(ParseLines(Split(contents, '\n')).value)) == [])
    ensures contents != [] && ParseLines(Split(contents, '\n')).Ok? && r.Err? ==>
              r == Err(EngineErrors.ModelCreationError(MissingData(MissingFields(Finish(ParseLines(Split(contents, '\n')).value)))))
  {
    if contents == [] {
      return Err(EngineErrors.ModelCreationError(ModelFileIsEmpty));
    }
    var builder := ParseRows(Split(contents, '\n'));
    if builder.Err? {
      return Err(builder.error);
    }
    var check := CheckIfAllDataExists(builder.value);
    if check.Err? {
      return Err(EngineErrors.ModelCreationError(check.error));
    }
    r := builder;
  }

  /// Since the rows are always stored, a parsed file never reports its
  /// appearance or its hitbox as missing: only the five `skin` fields can be.
  lemma ParsedRowsAreNeverMissing(lines: seq<string>)
    requires ParseLines(lines).Ok?
    ensures var b := ParseLines(lines).value.builder;
            MissingFields(Finish(ParseLines(lines).value)) == MissingCharacters(b) + MissingIdentity(b)
  {
    var st := ParseLines(lines).value;
    assert MissingShapes(Finish(st)) == [];
  }

  /// An empty builder lists all seven required fields, in order.
  lemma MissingDataOrder()
    ensures MissingFields(EmptyBuilder) == ["Center Character", "Center Replacement Character", "Air Character",
                                            "Assigned Name", "Strata", "Appearance", "Hitbox Dimensions"]
  {
  }

  /// An `=` inside the contents splits the row into three pieces, so the
  /// older parser refuses a row the model crate's parser accepts.
  lemma EqualsInsideContentsRefused()
    ensures SkinChecks(EmptyBuilder, "name='a=b'", 4) == Err(InvalidSyntax(4))
    ensures ModelFileParser.LineToParts("name='a=b'", 4).Ok?
  {
    assert "name='a=b'" == "name" + ['='] + ("'a" + ['='] + "b'");
    SplitAtSeparator("name", '=', "'a" + ['='] + "b'");
    SplitAtSeparator("'a", '=', "b'");
    SplitWithoutSeparator("b'", '=');
    ModelFileParser.EqualsInsideContents();
  }

  /// A row split into a key and quoted contents is read as such.
  lemma {:induction false} RowPartsQuoted(key: string, contents: string, lineNumber: nat)
    requires '=' !in key && '=' !in contents && '\'' !in contents
    ensures RowParts(key + "=" + "'" + contents + "'", lineNumber) == Ok((key, contents))
  {
    var rest := "'" + contents + "'";
    assert key + "=" + "'" + contents + "'" == key + ['='] + rest;
    SplitAtSeparator(key, '=', rest);
    SplitWithoutSeparator(rest, '=');
    ModelFileParser.QuotedPieces(contents, '\'');
    assert SecondPiece(rest, '\'') == Some(contents);
  }
}
