// model_data_structures/src/models/model_file_parser.rs: the `.model` file
// format. A file is split into lines, and a section state machine walks them:
// `skin`, `appearance` and `hitbox_dimensions` headers open a section, a
// blank line or `-=--=-` closes it, lines containing `+- ` are comments, and
// every other line belongs to the open section. Lines are numbered from 1 in
// errors.
//
// Reading the file is replaced by its contents, and the filesystem query on
// an animation path by the parameter `isDirectory`.
module ModelFileParser {
  import opened Wrappers
  import opened Text
  import opened ModelErrors
  import Config

  datatype Section = Skin | Appearance | HitboxDimensions | Unknown

  /// `ModelDataBuilder`: what the lines of a file have supplied so far.
  datatype ModelDataBuilder = ModelDataBuilder(
    anchor: Option<char>,
    anchorReplacement: Option<char>,
    air: Option<char>,
    name: Option<string>,
    strata: Option<nat>,
    appearance: Option<string>,
    hitboxDimensions: Option<string>,
    animationFilePath: Option<string>)

  const EmptyBuilder := ModelDataBuilder(None, None, None, None, None, None, None, None)

  /// The line number an error names, if it names one.
  function ErrorLine(e: ModelCreationError): Option<nat>
  {
    match e
    case InvalidSyntax(line) => Some(line)
    case InvalidStringSizeAtLine(line) => Some(line)
    case _ => None
  }

  /// `line_to_parts`: the key is the text before the first `=`; the contents
  /// are the text after the first `'` up to the next one, or failing any `'`
  /// the same with `"`.
  function LineToParts(row: string, lineNumber: nat): (r: Result<(string, string), ModelCreationError>)
    ensures r.Err? ==> r.error == InvalidSyntax(lineNumber)
    ensures '=' !in row ==> r.Err?
    ensures r.Ok? ==> exists rest :: row == r.value.0 + "=" + rest && '=' !in r.value.0
                                     && (r.value.1 in Split(rest, '\'')[1..]
                                         || ('\'' !in rest && r.value.1 in Split(rest, '"')[1..]))
    ensures SplitOnce(row, '=').Some? ==>
              (r.Ok? <==> '\'' in SplitOnce(row, '=').value.1 || '"' in SplitOnce(row, '=').value.1)
  {
    match SplitOnce(row, '=')
    case None => Err(InvalidSyntax(lineNumber))
    case Some((dataType, rest)) =>
      match SecondPiece(rest, '\'')
      case Some(contents) => Ok((dataType, contents))
      case None =>
        match SecondPiece(rest, '"')
        case Some(contents) => Ok((dataType, contents))
        case None => Err(InvalidSyntax(lineNumber))
  }

  /// A `key='contents'` row splits into its key and contents whenever the key
  /// has no `=` and the contents no `'`; the contents may themselves hold `=`.
  lemma {:induction false} LineToPartsQuoted(key: string, contents: string, lineNumber: nat)
    requires '=' !in key && '\'' !in contents
    ensures LineToParts(key + "=" + "'" + contents + "'", lineNumber) == Ok((key, contents))
  {
    var rest := "'" + contents + "'";
    var row := key + "=" + "'" + contents + "'";
    assert row == key + ['='] + rest;
    SplitOnceAt(key, '=', rest);
    QuotedPieces(contents, '\'');
    assert SecondPiece(rest, '\'') == Some(contents);
  }

  /// Splitting a quoted string on its quote gives the empty text, the
  /// contents and the empty text.
  lemma QuotedPieces(contents: string, quote: char)
    requires quote !in contents
    ensures Split([quote] + contents + [quote], quote) == [[], contents, []]
  {
    assert [quote] + contents + [quote] == [] + [quote] + (contents + [quote] + []);
    SplitAtSeparator([], quote, contents + [quote] + []);
    SplitAtSeparator(contents, quote, []);
  }

  /// The source's `equals_in_skin_field` test: an `=` inside quotes is part
  /// of the contents.
  lemma EqualsInsideContents()
    ensures LineToParts("name='a=b'", 4) == Ok(("name", "a=b"))
  {
    assert "name='a=b'" == "name" + "=" + "'" + "a=b" + "'";
    LineToPartsQuoted("name", "a=b", 4);
  }

  /// `contents_to_char`: the contents must be exactly one byte long.
  function ContentsToChar(contents: string, lineNumber: nat): (r: Result<char, ModelCreationError>)
    ensures r.Ok? <==> |contents| == 1 && IsAscii(contents[0])
    ensures r.Ok? ==> r.value == contents[0]
    ensures r.Err? ==> r.error == InvalidStringSizeAtLine(lineNumber)
  {
    if ByteLen(contents) > 1 then Err(InvalidStringSizeAtLine(lineNumber))
    else if contents == [] then Err(InvalidStringSizeAtLine(lineNumber))
    else
      assert ByteLen(contents) == Utf8Len(contents[0]) + ByteLen(contents[1..]);
      Ok(contents[0])
  }

  /// The `strata` row: empty contents, contents that are not a number, and a
  /// number outside 0..=100 are refused, in that order.
  function ParseStrata(contents: string, lineNumber: nat): (r: Result<nat, ModelCreationError>)
    ensures contents == [] ==> r == Err(InvalidStringSizeAtLine(lineNumber))
    ensures contents != [] && ParseUsize(Trim(contents)).None? ==> r == Err(InvalidSyntax(lineNumber))
    ensures contents != [] && ParseUsize(Trim(contents)).Some? ==>
              r == if Config.CorrectStrataRange(ParseUsize(Trim(contents)).value)
                   then Ok(ParseUsize(Trim(contents)).value)
                   else Err(InvalidStrataRange(ParseUsize(Trim(contents)).value))
  {
    if contents == [] then Err(InvalidStringSizeAtLine(lineNumber))
    else
      match ParseUsize(Trim(contents))
      case None => Err(InvalidSyntax(lineNumber))
      case Some(n) => if Config.CorrectStrataRange(n) then Ok(n) else Err(InvalidStrataRange(n))
  }

  /// The keys a `skin` row may have.
  datatype SkinField = AnchorField | AnchorReplacementField | AirField | NameField | StrataField | AnimationPathField

  /// The field a (trimmed, lower-cased) key names, if any.
  function SkinFieldOf(key: string): Option<SkinField>
  {
    if key == "anchor" then Some(AnchorField)
    else if key == "anchor_replacement" then Some(AnchorReplacementField)
    else if key == "air" then Some(AirField)
    else if key == "name" then Some(NameField)
    else if key == "strata" then Some(StrataField)
    else if key == "animation_path" then Some(AnimationPathField)
    else None
  }

  /// Storing the contents of a row in the field its key names.
  function StoreField(b: ModelDataBuilder, field: SkinField, contents: string, lineNumber: nat,
                      isDirectory: string -> bool): (r: Result<ModelDataBuilder, ModelCreationError>)
    ensures r.Err? ==> ErrorLine(r.error) == Some(lineNumber) || r.error.InvalidStrataRange?
    ensures r.Err? && r.error.InvalidStrataRange? ==> !Config.CorrectStrataRange(r.error.value)
    ensures field.AnchorField? ==> (r.Ok? <==> ContentsToChar(contents, lineNumber).Ok?)
                                   && (r.Ok? ==> r.value == b.(anchor := Some(contents[0])))
    ensures field.AnchorReplacementField? ==> (r.Ok? <==> ContentsToChar(contents, lineNumber).Ok?)
                                              && (r.Ok? ==> r.value == b.(anchorReplacement := Some(contents[0])))
    ensures field.AirField? ==> (r.Ok? <==> ContentsToChar(contents, lineNumber).Ok?)
                                && (r.Ok? ==> r.value == b.(air := Some(contents[0])))
    ensures field.NameField? ==> (r.Ok? <==> contents != [])
                                 && (r.Ok? ==> r.value == b.(name := Some(contents)))
    ensures field.StrataField? ==> (r.Ok? <==> ParseStrata(contents, lineNumber).Ok?)
                                   && (r.Ok? ==> r.value == b.(strata := Some(ParseStrata(contents, lineNumber).value)))
    ensures field.AnimationPathField? ==> (r.Ok? <==> contents != [] && isDirectory(contents))
                                          && (r.Ok? ==> r.value == b.(animationFilePath := Some(contents)))
  {
    match field
    case AnchorField =>
      (match ContentsToChar(contents, lineNumber)
       case Err(e) => Err(e)
       case Ok(c) => Ok(b.(anchor := Some(c))))
    case AnchorReplacementField =>
      (match ContentsToChar(contents, lineNumber)
       case Err(e) => Err(e)
       case Ok(c) => Ok(b.(anchorReplacement := Some(c))))
    case AirField =>
      (match ContentsToChar(contents, lineNumber)
       case Err(e) => Err(e)
       case Ok(c) => Ok(b.(air := Some(c))))
    case NameField =>
      if contents == [] then Err(InvalidStringSizeAtLine(lineNumber)) else Ok(b.(name := Some(contents)))
    case StrataField =>
      (match ParseStrata(contents, lineNumber)
       case Err(e) => Err(e)
       case Ok(n) => Ok(b.(strata := Some(n))))
    case AnimationPathField =>
      // `animation_path_checks`: the path must name an existing directory.
      if contents == [] || !isDirectory(contents) then Err(InvalidSyntax(lineNumber))
      else Ok(b.(animationFilePath := Some(contents)))
  }

  /// `skin_checks`: one `key = 'contents'` row of the `skin` section, stored
  /// in the field the trimmed, lower-cased key names; an unknown key is a
  /// syntax error.
  function SkinChecks(b: ModelDataBuilder, row: string, lineNumber: nat,
                      isDirectory: string -> bool): (r: Result<ModelDataBuilder, ModelCreationError>)
    ensures r.Err? ==> ErrorLine(r.error) == Some(lineNumber) || r.error.InvalidStrataRange?
    ensures r.Err? && r.error.InvalidStrataRange? ==> !Config.CorrectStrataRange(r.error.value)
    ensures LineToParts(row, lineNumber).Err? ==> r.Err?
    ensures LineToParts(row, lineNumber).Ok? && SkinFieldOf(Trim(Lower(LineToParts(row, lineNumber).value.0))).None?
            ==> r == Err(InvalidSyntax(lineNumber))
  {
    match LineToParts(row, lineNumber)
    case Err(e) => Err(e)
    case Ok((dataType, contents)) =>
      match SkinFieldOf(Trim(Lower(dataType)))
      case None => Err(InvalidSyntax(lineNumber))
      case Some(field) => StoreField(b, field, contents, lineNumber, isDirectory)
  }

  /// The state `parse_rows` carries from line to line.
  datatype ParserState = ParserState(
    builder: ModelDataBuilder,
    section: Section,
    appearanceRows: seq<string>,
    hitboxRows: seq<string>)

  const InitialState := ParserState(EmptyBuilder, Unknown, [], [])

  predicate IsSeparator(line: string)
  {
    var key := Trim(Lower(line));
    key == "-=--=-" || key == ""
  }

  function HeaderSection(line: string): Option<Section>
  {
    var key := Trim(Lower(line));
    if key == "skin" then Some(Skin)
    else if key == "appearance" then Some(Appearance)
    else if key == "hitbox_dimensions" then Some(HitboxDimensions)
    else None
  }

  /// A comment: a line that is neither a separator nor a header and
  /// contains `+- `.
  predicate IsComment(line: string)
  {
    !IsSeparator(line) && HeaderSection(line).None? && Contains(line, "+- ")
  }

  /// The effect of one line (numbered `lineNumber`) on the parser state.
  function Step(st: ParserState, line: string, lineNumber: nat,
                isDirectory: string -> bool): Result<ParserState, ModelError>
  {
    if IsSeparator(line) then Ok(st.(section := Unknown))
    else if HeaderSection(line).Some? then Ok(st.(section := HeaderSection(line).value))
    else if IsComment(line) then Ok(st)
    else
      match st.section
      case Skin =>
        (match SkinChecks(st.builder, line, lineNumber, isDirectory)
         case Err(e) => Err(ModelCreationError(e))
         case Ok(b) => Ok(st.(builder := b)))
      case Appearance => Ok(st.(appearanceRows := st.appearanceRows + [line]))
      case HitboxDimensions => Ok(st.(hitboxRows := st.hitboxRows + [line]))
      case Unknown => Ok(st)
  }

  /// The state after the given lines, or the first line's error.
  function ParseLines(lines: seq<string>, isDirectory: string -> bool): Result<ParserState, ModelError>
  {
    if lines == [] then Ok(InitialState)
    else
      match ParseLines(lines[..|lines| - 1], isDirectory)
      case Err(e) => Err(e)
      case Ok(st) => Step(st, lines[|lines| - 1], |lines|, isDirectory)
  }

  /// The end of `parse_rows`: the collected rows joined by `'\n'`. An empty
  /// join leaves the appearance unset; the hitbox rows are always stored.
  function Finish(st: ParserState): (b: ModelDataBuilder)
    ensures b.appearance == if Join(st.appearanceRows, "\n") == [] then st.builder.appearance
                            else Some(Join(st.appearanceRows, "\n"))
    ensures b.hitboxDimensions == Some(Join(st.hitboxRows, "\n"))
    ensures b.(appearance := st.builder.appearance, hitboxDimensions := st.builder.hitboxDimensions) == st.builder
  {
    var appearance := Join(st.appearanceRows, "\n");
    var b := if appearance != [] then st.builder.(appearance := Some(appearance)) else st.builder;
    b.(hitboxDimensions := Some(Join(st.hitboxRows, "\n")))
  }

  /// `parse_rows`: the lines are fed to the state machine one by one, the
  /// first failing line's error ends the parse.
  method ParseRows(lines: seq<string>, isDirectory: string -> bool) returns (r: Result<ModelDataBuilder, ModelError>)
    ensures r.Err? <==> ParseLines(lines, isDirectory).Err?
    ensures r.Err? ==> r.error == ParseLines(lines, isDirectory).error
    ensures r.Ok? ==> r.value == Finish(ParseLines(lines, isDirectory).value)
  {
    var st := InitialState;
    var i := 0;
    while i < |lines|
      invariant 0 <= i <= |lines|
      invariant ParseLines(lines[..i], isDirectory) == Ok(st)
    {
      PrefixStep(lines, i, isDirectory);
      var next := Step(st, lines[i], i + 1, isDirectory);
      if next.Err? {
        PrefixErrorPropagates(lines, i + 1, isDirectory);
        return Err(next.error);
      }
      st := next.value;
      i := i + 1;
    }
    assert lines[..i] == lines;
    r := Ok(Finish(st));
  }

  /// The prefix one line longer is one more `Step`.
  lemma PrefixStep(lines: seq<string>, i: nat, isDirectory: string -> bool)
    requires i < |lines| && ParseLines(lines[..i], isDirectory).Ok?
    ensures ParseLines(lines[..i + 1], isDirectory) == Step(ParseLines(lines[..i], isDirectory).value, lines[i], i + 1, isDirectory)
  {
    assert lines[..i + 1][..i] == lines[..i];
  }

  /// Once a prefix of the lines fails, every longer prefix fails the same way.
  lemma {:induction false} PrefixErrorPropagates(lines: seq<string>, k: nat, isDirectory: string -> bool)
    requires k <= |lines|
    requires ParseLines(lines[..k], isDirectory).Err?
    ensures ParseLines(lines, isDirectory) == ParseLines(lines[..k], isDirectory)
    decreases |lines| - k
  {
    if k < |lines| {
      assert lines[..k + 1][..k] == lines[..k];
      PrefixErrorPropagates(lines, k + 1, isDirectory);
    } else {
      assert lines[..k] == lines;
    }
  }

  /// Adding a line to a file that parses so far is one `Step`.
  lemma AppendLine(lines: seq<string>, line: string, isDirectory: string -> bool)
    requires ParseLines(lines, isDirectory).Ok?
    ensures ParseLines(lines + [line], isDirectory)
            == Step(ParseLines(lines, isDirectory).value, line, |lines| + 1, isDirectory)
  {
    assert (lines + [line])[..|lines|] == lines;
  }

  /// A comment line changes nothing, in whichever section it appears.
  lemma CommentsAreIgnored(lines: seq<string>, comment: string, isDirectory: string -> bool)
    requires IsComment(comment)
    ensures ParseLines(lines + [comment], isDirectory) == ParseLines(lines, isDirectory)
  {
    assert (lines + [comment])[..|lines|] == lines;
    if ParseLines(lines, isDirectory).Ok? {
      StepOfComment(ParseLines(lines, isDirectory).value, comment, |lines| + 1, isDirectory);
    }
  }

  /// A comment line is a step that changes nothing.
  lemma StepOfComment(st: ParserState, comment: string, lineNumber: nat, isDirectory: string -> bool)
    requires IsComment(comment)
    ensures Step(st, comment, lineNumber, isDirectory) == Ok(st)
  {
  }

  /// A header line opens its section and is not itself collected.
  lemma HeadersOpenSections(lines: seq<string>, header: string, isDirectory: string -> bool)
    requires ParseLines(lines, isDirectory).Ok? && HeaderSection(header).Some?
    ensures ParseLines(lines + [header], isDirectory)
            == Ok(ParseLines(lines, isDirectory).value.(section := HeaderSection(header).value))
  {
    AppendLine(lines, header, isDirectory);
    StepOfHeader(ParseLines(lines, isDirectory).value, header, |lines| + 1, isDirectory);
  }

  /// A header line is a step that only opens its section.
  lemma StepOfHeader(st: ParserState, header: string, lineNumber: nat, isDirectory: string -> bool)
    requires HeaderSection(header).Some?
    ensures Step(st, header, lineNumber, isDirectory) == Ok(st.(section := HeaderSection(header).value))
  {
  }

  /// Inside the appearance section a row is collected at the end, in order.
  lemma AppearanceRowsCollectedInOrder(lines: seq<string>, row: string, isDirectory: string -> bool)
    requires ParseLines(lines, isDirectory).Ok?
    requires ParseLines(lines, isDirectory).value.section == Appearance
    requires !IsSeparator(row) && HeaderSection(row).None? && !Contains(row, "+- ")
    ensures ParseLines(lines + [row], isDirectory).Ok?
    ensures ParseLines(lines + [row], isDirectory).value.appearanceRows
            == ParseLines(lines, isDirectory).value.appearanceRows + [row]
  {
    AppendLine(lines, row, isDirectory);
  }

  /// A failing skin row fails the whole parse with its own 1-based line number.
  lemma SkinErrorsNameTheirLine(lines: seq<string>, row: string, isDirectory: string -> bool)
    requires ParseLines(lines, isDirectory).Ok?
    requires ParseLines(lines, isDirectory).value.section == Skin
    requires !IsSeparator(row) && HeaderSection(row).None? && !IsComment(row)
    requires SkinChecks(ParseLines(lines, isDirectory).value.builder, row, |lines| + 1, isDirectory).Err?
    ensures ParseLines(lines + [row], isDirectory).Err?
    ensures var e := ParseLines(lines + [row], isDirectory).error;
            e.ModelCreationError? && (ErrorLine(e.creation) == Some(|lines| + 1) || e.creation.InvalidStrataRange?)
  {
    AppendLine(lines, row, isDirectory);
  }

  /// The names `check_if_all_data_exists` gives the required fields.
  const AnchorCharacterName: string := "Anchor Character"
  const AnchorReplacementName: string := "Anchor Replacement Character"
  const AirCharacterName: string := "Air Character"
  const AssignedNameName: string := "Assigned Name"
  const StrataName: string := "Strata"
  const AppearanceName: string := "Appearance"

  /// The required fields' names, in the order `check_if_all_data_exists`
  /// tests them.
  const RequiredFields: seq<string> := [AnchorCharacterName, AnchorReplacementName, AirCharacterName,
                                        AssignedNameName, StrataName, AppearanceName]

  /// `names` is `order` with some entries dropped: every name listed comes
  /// from `order`, and the names keep the order they have there.
  predicate IsSubsequence(names: seq<string>, order: seq<string>)
    decreases |order|
  {
    names == []
    || (order != []
        && ((names[0] == order[0] && IsSubsequence(names[1..], order[1..]))
            || IsSubsequence(names, order[1..])))
  }

  /// A list taken from `order` is no longer than `order`.
  lemma {:induction false} SubsequenceLength(names: seq<string>, order: seq<string>)
    requires IsSubsequence(names, order)
    ensures |names| <= |order|
    decreases |order|
  {
    if names != [] {
      if names[0] == order[0] && IsSubsequence(names[1..], order[1..]) {
        SubsequenceLength(names[1..], order[1..]);
      } else {
        SubsequenceLength(names, order[1..]);
      }
    }
  }

  /// The one-name list when `missing` holds, else nothing.
  function NameIf(missing: bool, name: string): seq<string>
  {
    if missing then [name] else []
  }

  /// Putting `x` in front of `order`, the list may start with `x` or not.
  lemma SubsequenceCons(missing: bool, x: string, rest: seq<string>, order: seq<string>)
    requires IsSubsequence(rest, order)
    ensures IsSubsequence(NameIf(missing, x) + rest, [x] + order)
  {
    var r := NameIf(missing, x) + rest;
    assert ([x] + order)[1..] == order;
    if missing {
      assert r[0] == x && r[1..] == rest;
    } else {
      assert r == rest;
    }
  }

  /// Names taken from `oa` followed by names taken from `ob` are taken from
  /// `oa + ob`.
  lemma {:induction false} SubsequenceAppend(a: seq<string>, oa: seq<string>, b: seq<string>, ob: seq<string>)
    requires IsSubsequence(a, oa) && IsSubsequence(b, ob)
    ensures IsSubsequence(a + b, oa + ob)
    decreases |oa|
  {
    if oa == [] {
      assert a == [] && a + b == b && oa + ob == ob;
    } else {
      assert (oa + ob)[0] == oa[0] && (oa + ob)[1..] == oa[1..] + ob;
      if a != [] && a[0] == oa[0] && IsSubsequence(a[1..], oa[1..]) {
        SubsequenceAppend(a[1..], oa[1..], b, ob);
        assert (a + b)[0] == a[0] && (a + b)[1..] == a[1..] + b;
      } else {
        SubsequenceAppend(a, oa[1..], b, ob);
      }
    }
  }

  /// The names of the missing required fields, in the order the parser
  /// reports them: each name is listed exactly when its field is missing,
  /// and the names keep the order of `RequiredFields`.
  function MissingFields(b: ModelDataBuilder): (r: seq<string>)
    ensures AnchorCharacterName in r <==> b.anchor.None?
    ensures AnchorReplacementName in r <==> b.anchorReplacement.None?
    ensures AirCharacterName in r <==> b.air.None?
    ensures AssignedNameName in r <==> b.name.None?
    ensures StrataName in r <==> b.strata.None?
    ensures AppearanceName in r <==> b.appearance.None?
    ensures IsSubsequence(r, RequiredFields)
    ensures r == [] <==> b.anchor.Some? && b.anchorReplacement.Some? && b.air.Some?
                         && b.name.Some? && b.strata.Some? && b.appearance.Some?
  {
    assert RequiredFields == CharacterFields + OtherFields;
    SubsequenceAppend(MissingCharacters(b), CharacterFields, MissingOthers(b), OtherFields);
    MissingCharacters(b) + MissingOthers(b)
  }

  const CharacterFields: seq<string> := [AnchorCharacterName, AnchorReplacementName, AirCharacterName]
  const OtherFields: seq<string> := [AssignedNameName, StrataName, AppearanceName]

  /// The missing character fields, each listed exactly when missing, in the
  /// source's order.
  function MissingCharacters(b: ModelDataBuilder): (r: seq<string>)
    ensures AnchorCharacterName in r <==> b.anchor.None?
    ensures AnchorReplacementName in r <==> b.anchorReplacement.None?
    ensures AirCharacterName in r <==> b.air.None?
    ensures IsSubsequence(r, CharacterFields)
    ensures r == [] <==> b.anchor.Some? && b.anchorReplacement.Some? && b.air.Some?
  {
    var r := NameIf(b.anchor.None?, AnchorCharacterName)
             + (NameIf(b.anchorReplacement.None?, AnchorReplacementName) + NameIf(b.air.None?, AirCharacterName));
    ThreeInOrder(b.anchor.None?, AnchorCharacterName, b.anchorReplacement.None?, AnchorReplacementName,
                 b.air.None?, AirCharacterName);
    r
  }

  /// The missing name, strata and appearance, each listed exactly when
  /// missing, in the source's order.
  function MissingOthers(b: ModelDataBuilder): (r: seq<string>)
    ensures AssignedNameName in r <==> b.name.None?
    ensures StrataName in r <==> b.strata.None?
    ensures AppearanceName in r <==> b.appearance.None?
    ensures IsSubsequence(r, OtherFields)
    ensures r == [] <==> b.name.Some? && b.strata.Some? && b.appearance.Some?
  {
    var r := NameIf(b.name.None?, AssignedNameName)
             + (NameIf(b.strata.None?, StrataName) + NameIf(b.appearance.None?, AppearanceName));
    ThreeInOrder(b.name.None?, AssignedNameName, b.strata.None?, StrataName,
                 b.appearance.None?, AppearanceName);
    r
  }

  /// Three names, each kept when its flag holds, are taken in order from
  /// the list of the three.
  lemma ThreeInOrder(p: bool, x: string, q: bool, y: string, t: bool, z: string)
    ensures IsSubsequence(NameIf(p, x) + (NameIf(q, y) + NameIf(t, z)), [x, y, z])
  {
    assert IsSubsequence([], []);
    SubsequenceCons(t, z, [], []);
    assert NameIf(t, z) + [] == NameIf(t, z) && [z] + [] == [z];
    SubsequenceCons(q, y, NameIf(t, z), [z]);
    assert [y] + [z] == [y, z];
    SubsequenceCons(p, x, NameIf(q, y) + NameIf(t, z), [y, z]);
    assert [x] + [y, z] == [x, y, z];
  }

  /// `check_if_all_data_exists`: each missing field's name is pushed in turn
  /// (here the last three are gathered first and then appended, which gives
  /// the same list); the hitbox rows and the animation path are not
  /// required.
  method CheckIfAllDataExists(b: ModelDataBuilder) returns (r: Result<Unit, ModelCreationError>)
    ensures r.Ok? <==> MissingFields(b) == []
    ensures r.Err? ==> r.error == MissingData(MissingFields(b))
  {
    var errorList: seq<string> := [];
    if b.anchor.None? {
      errorList := errorList + [AnchorCharacterName];
    }
    if b.anchorReplacement.None? {
      errorList := errorList + [AnchorReplacementName];
    }
    if b.air.None? {
      errorList := errorList + [AirCharacterName];
    }
    assert errorList == MissingCharacters(b);
    var others: seq<string> := [];
    if b.name.None? {
      others := others + [AssignedNameName];
    }
    if b.strata.None? {
      others := others + [StrataName];
    }
    if b.appearance.None? {
      others := others + [AppearanceName];
    }
    assert others == MissingOthers(b);
    errorList := errorList + others;
    if errorList == [] {
      r := Ok(Unit);
    } else {
      r := Err(MissingData(errorList));
    }
  }

  /// `parse` up to the builder: empty contents are refused before any line
  /// is read, then the lines are parsed and every required field must be
  /// present. Building the model from the builder is not part of this model.
  method Parse(contents: string, isDirectory: string -> bool) returns (r: Result<ModelDataBuilder, ModelError>)
    ensures contents == [] ==> r == Err(ModelCreationError(ModelFileIsEmpty))
    ensures contents != [] && ParseLines(Split(contents, '\n'), isDirectory).Err? ==>
              r == Err(ParseLines(Split(contents, '\n'), isDirectory).error)
    ensures r.Ok? ==> contents != [] && ParseLines(Split(contents, '\n'), isDirectory).Ok?
                      && r.value == Finish(ParseLines(Split(contents, '\n'), isDirectory).value)
                      && MissingFields(r.value) == []
    ensures contents != [] && ParseLines(Split(contents, '\n'), isDirectory).Ok? ==>
              (r.Ok? <==> MissingFields(Finish(ParseLines(Split(contents, '\n'), isDirectory).value)) == [])
    ensures contents != [] && ParseLines(Split(contents, '\n'), isDirectory).Ok? && r.Err? ==>
              r == Err(ModelCreationError(MissingData(MissingFields(Finish(ParseLines(Split(contents, '\n'), isDirectory).value)))))
  {
    if contents == [] {
      return Err(ModelCreationError(ModelFileIsEmpty));
    }
    var builder := ParseRows(Split(contents, '\n'), isDirectory);
    if builder.Err? {
      return Err(builder.error);
    }
    var check := CheckIfAllDataExists(builder.value);
    if check.Err? {
      return Err(ModelCreationError(check.error));
    }
    r := builder;
  }

  /// The source's `missing_data` test: a builder with nothing in it lists
  /// all six required fields, in order.
  lemma MissingDataOrder()
    ensures MissingFields(EmptyBuilder) == ["Anchor Character", "Anchor Replacement Character",
                                            "Air Character", "Assigned Name", "Strata", "Appearance"]
  {
  }

  /// A row holding an unsigned number with no surrounding white space is
  /// read as that number, and accepted when it is at most 100.
  lemma StrataNumber(contents: string, n: nat, lineNumber: nat)
    requires contents != [] && AllDigits(contents) && DigitsValue(contents) == n
    requires n < 0x1_0000_0000_0000_0000
    ensures ParseStrata(contents, lineNumber)
            == if n <= Config.MaxStrata then Ok(n) else Err(InvalidStrataRange(n))
  {
    assert IsDigit(contents[0]) && IsDigit(contents[|contents| - 1]);
    TrimUnchanged(contents);
    ParseUsizeDigits(contents);
  }

  /// A one-character row that is neither a sign nor a digit is a syntax error.
  lemma StrataNotANumber(contents: string, lineNumber: nat)
    requires |contents| == 1 && !IsWhiteSpace(contents[0]) && !IsDigit(contents[0]) && contents[0] != '+'
    ensures ParseStrata(contents, lineNumber) == Err(InvalidSyntax(lineNumber))
  {
    TrimUnchanged(contents);
    ParseUsizeRejects(contents);
  }

  /// The source's `model_with_impossible_strata` test: 1000 is out of range.
  lemma StrataOutOfRange()
    ensures ParseStrata("1000", 6) == Err(InvalidStrataRange(1000))
  {
    assert "1000"[..3] == "100" && "100"[..2] == "10" && "10"[..1] == "1" && "1"[..0] == "";
    assert AllDigits("1000") by {
      assert IsDigit("1000"[0]) && IsDigit("1000"[1]) && IsDigit("1000"[2]) && IsDigit("1000"[3]);
    }
    assert DigitsValue("1") == 1;
    assert DigitsValue("10") == 10;
    assert DigitsValue("100") == 100;
    StrataNumber("1000", 1000, 6);
  }

  /// The source's `characters_in_strata_field` and `model_with_no_data_in_strata`
  /// tests: letters are not a number, and empty contents have the wrong size.
  lemma StrataMalformed()
    ensures ParseStrata("", 6) == Err(InvalidStringSizeAtLine(6))
    ensures ParseStrata("a", 6) == Err(InvalidSyntax(6))
  {
    StrataNotANumber("a", 6);
  }

  /// The top of the range is accepted.
  lemma StrataAtLimit()
    ensures ParseStrata("100", 3) == Ok(100)
  {
    assert "100"[..2] == "10" && "10"[..1] == "1" && "1"[..0] == "";
    assert AllDigits("100") by {
      assert IsDigit("100"[0]) && IsDigit("100"[1]) && IsDigit("100"[2]);
    }
    assert DigitsValue("1") == 1;
    assert DigitsValue("10") == 10;
    StrataNumber("100", 100, 3);
  }

  /// The contents of a one-character field must be exactly one byte.
  lemma ContentsToCharExamples()
    ensures ContentsToChar("a", 2) == Ok('a')
    ensures ContentsToChar("ab", 2) == Err(InvalidStringSizeAtLine(2))
    ensures ContentsToChar("", 2) == Err(InvalidStringSizeAtLine(2))
    ensures ContentsToChar("é", 2) == Err(InvalidStringSizeAtLine(2))
  {
  }
}
