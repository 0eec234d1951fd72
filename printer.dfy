// src/screen/printer.rs: building the frame string the screen shows. A frame
// is `GridHeight` rows of `GridWidth` cells, each row but the last followed by
// a `'\n'`, so the cell in column x of row y sits at index x + (GridWidth + 1) * y.
// Models are painted strata by strata, lowest first, so a higher strata paints
// over a lower one; air and non-ASCII characters leave the cell below as it
// was. Handing the finished frame to the terminal printer is not part of this
// model.
module Printer {
  import opened Wrappers
  import Config
  import Text
  import Arith
  import Sprites
  import EngineRectangle
  import ModelRecord
  import ModelStorage

  /// Number of characters in a frame.
  const FrameLength: nat := Config.GridWidth * Config.GridHeight + Config.GridHeight - 1

  /// `n` copies of `c`.
  function Repeat(c: char, n: nat): (r: string)
    ensures |r| == n
    ensures forall j :: 0 <= j < n ==> r[j] == c
  {
    if n == 0 then [] else Repeat(c, n - 1) + [c]
  }

  /// `n` copies of `row` one after the other.
  function RepeatRows(row: string, n: nat): (r: string)
  {
    if n == 0 then [] else RepeatRows(row, n - 1) + row
  }

  /// Every character of the repeated rows is the row's character at the same
  /// column.
  lemma {:induction false} RepeatRowsAt(row: string, n: nat, j: nat)
    requires |row| > 0
    ensures |RepeatRows(row, n)| == |row| * n
    ensures j < |row| * n ==> RepeatRows(row, n)[j] == row[j % |row|]
  {
    if n > 0 {
      RepeatRowsAt(row, n - 1, j);
      Arith.MulSucc(|row|, n - 1);
      if |row| * (n - 1) <= j < |row| * n {
        Arith.DivModUnique(j, |row|, n - 1, j - |row| * (n - 1));
      }
    }
  }

  /// `create_blank_frame`: `GridHeight` rows of `GridWidth` empty pixels
  /// separated by newlines, with no newline after the last row.
  function BlankFrame(): (r: string)
    ensures |r| == FrameLength
    ensures forall j :: 0 <= j < |r| ==>
              r[j] == (if j % Config.RowStride == Config.GridWidth then '\n' else Config.EmptyPixel)
  {
    var row := Repeat(Config.EmptyPixel, Config.GridWidth) + "\n";
    RepeatRowsAt(row, Config.GridHeight, 0);
    var frame := RepeatRows(row, Config.GridHeight);
    BlankFrameAt(row, frame);
    frame[..|frame| - 1]
  }

  lemma BlankFrameAt(row: string, frame: string)
    requires row == Repeat(Config.EmptyPixel, Config.GridWidth) + "\n"
    requires frame == RepeatRows(row, Config.GridHeight)
    ensures |frame| == FrameLength + 1
    ensures forall j :: 0 <= j < |frame| ==>
              frame[j] == (if j % Config.RowStride == Config.GridWidth then '\n' else Config.EmptyPixel)
  {
    RepeatRowsAt(row, Config.GridHeight, 0);
    forall j | 0 <= j < |frame|
      ensures frame[j] == (if j % Config.RowStride == Config.GridWidth then '\n' else Config.EmptyPixel)
    {
      RepeatRowsAt(row, Config.GridHeight, j);
    }
  }

  /// The characters of a model's current appearance with the row breaks
  /// removed, in reading order.
  function Cells(m: ModelRecord.ModelData): string
  {
    Text.Remove(Sprites.GetAppearance(m.appearance), '\n')
  }

  /// The sprite's width (the source unwraps its dimensions).
  function Width(m: ModelRecord.ModelData): nat
    requires EngineRectangle.StringIsValidRectangle(m.appearance.shape)
  {
    Sprites.GetDimensions(m.appearance).x
  }

  /// Cell `i` of the model is drawn: it is neither air nor non-ASCII.
  predicate Paints(m: ModelRecord.ModelData, i: nat)
    requires i < |Cells(m)|
  {
    Cells(m)[i] != m.appearance.airCharacter && Text.IsAscii(Cells(m)[i])
  }

  /// The frame index `apply_model_in_frame` writes cell `index` of a sprite
  /// `width` wide whose top left is at `position`:
  /// (top left + (row stride * row + index)) - row * width.
  function CharacterIndex(position: nat, width: nat, index: nat): (r: nat)
    requires width > 0
    ensures r == position + Config.RowStride * (index / width) + index % width
    ensures r >= position
    ensures r == position <==> index == 0
  {
    var row := index / width;
    assert row * width <= index;
    (position + (Config.RowStride * row + index)) - row * width
  }

  /// What `apply_model_in_frame` needs to run without panicking: the sprite
  /// has dimensions, and every drawn cell has a non-zero sprite width and a
  /// write index inside a frame of `n` characters.
  predicate FitsIn(m: ModelRecord.ModelData, n: nat)
  {
    EngineRectangle.StringIsValidRectangle(m.appearance.shape) &&
    forall i :: 0 <= i < |Cells(m)| && Paints(m, i) ==>
      Width(m) > 0 && CharacterIndex(m.framePosition, Width(m), i) < n
  }

  /// The frame after the first `k` cells of the model are applied.
  function Painted(frame: string, m: ModelRecord.ModelData, k: nat): (r: string)
    requires FitsIn(m, |frame|) && k <= |Cells(m)|
    ensures |r| == |frame|
  {
    if k == 0 then frame
    else
      var f := Painted(frame, m, k - 1);
      if Paints(m, k - 1) then f[CharacterIndex(m.framePosition, Width(m), k - 1) := Cells(m)[k - 1]] else f
  }

  /// The character the last drawn cell among the first `k` writes at frame
  /// index `j`, if any cell does.
  function CellAt(m: ModelRecord.ModelData, k: nat, j: nat): (r: Option<char>)
    requires EngineRectangle.StringIsValidRectangle(m.appearance.shape) && k <= |Cells(m)|
    ensures r.Some? ==> r.value != m.appearance.airCharacter && Text.IsAscii(r.value)
  {
    if k == 0 then None
    else if Paints(m, k - 1) && Width(m) > 0 && CharacterIndex(m.framePosition, Width(m), k - 1) == j
    then Some(Cells(m)[k - 1])
    else CellAt(m, k - 1, j)
  }

  /// The character the whole model writes at frame index `j`, if any.
  function ModelCellAt(m: ModelRecord.ModelData, j: nat): Option<char>
    requires EngineRectangle.StringIsValidRectangle(m.appearance.shape)
  {
    CellAt(m, |Cells(m)|, j)
  }

  /// After painting, index `j` holds the character of the last cell drawn
  /// there, and is unchanged when no cell is drawn there.
  lemma {:induction false} PaintedAt(frame: string, m: ModelRecord.ModelData, k: nat, j: nat)
    requires FitsIn(m, |frame|) && k <= |Cells(m)| && j < |frame|
    ensures Painted(frame, m, k)[j] == (if CellAt(m, k, j).Some? then CellAt(m, k, j).value else frame[j])
  {
    if k > 0 {
      PaintedAt(frame, m, k - 1, j);
    }
  }

  /// `apply_model_in_frame`: writes each drawn cell of the model's current
  /// appearance at its frame index, one character at a time.
  method ApplyModelInFrame(model: ModelRecord.ModelData, frame: string) returns (r: string)
    requires FitsIn(model, |frame|)
    ensures r == Painted(frame, model, |Cells(model)|)
  {
    var position := model.framePosition;
    var sprite := model.appearance;
    var width := Sprites.GetDimensions(sprite).x;
    var air := sprite.airCharacter;
    var shape := Text.Remove(Sprites.GetAppearance(sprite), '\n');
    assert shape == Cells(model) && width == Width(model);
    r := frame;
    var index := 0;
    while index < |shape|
      invariant 0 <= index <= |shape|
      invariant r == Painted(frame, model, index)
    {
      var character := shape[index];
      if character != air && Text.IsAscii(character) {
        assert Paints(model, index);
        var characterIndex := CharacterIndex(position, width, index);
        r := r[characterIndex := character];
      }
      index := index + 1;
    }
  }

  /// The sprite's first cell, when drawn, lands on the model's frame position
  /// and nothing is written before it: the cell left of the top left keeps
  /// what the frame had.
  lemma FirstCellLandsOnPosition(frame: string, m: ModelRecord.ModelData)
    requires FitsIn(m, |frame|) && |Cells(m)| > 0 && Paints(m, 0)
    ensures m.framePosition < |frame| && Painted(frame, m, |Cells(m)|)[m.framePosition] == Cells(m)[0]
    ensures m.framePosition > 0 ==> Painted(frame, m, |Cells(m)|)[m.framePosition - 1] == frame[m.framePosition - 1]
  {
    assert CharacterIndex(m.framePosition, Width(m), 0) == m.framePosition;
    CellAtPosition(m, |Cells(m)|);
    PaintedAt(frame, m, |Cells(m)|, m.framePosition);
    if m.framePosition > 0 {
      CellBeforePosition(m, |Cells(m)|, m.framePosition - 1);
      PaintedAt(frame, m, |Cells(m)|, m.framePosition - 1);
    }
  }

  lemma {:induction false} CellAtPosition(m: ModelRecord.ModelData, k: nat)
    requires EngineRectangle.StringIsValidRectangle(m.appearance.shape)
    requires 0 < k <= |Cells(m)| && Paints(m, 0) && Width(m) > 0
    ensures CellAt(m, k, m.framePosition) == Some(Cells(m)[0])
  {
    if k > 1 {
      CellAtPosition(m, k - 1);
    }
  }

  lemma {:induction false} CellBeforePosition(m: ModelRecord.ModelData, k: nat, j: nat)
    requires EngineRectangle.StringIsValidRectangle(m.appearance.shape) && k <= |Cells(m)|
    requires j < m.framePosition
    ensures CellAt(m, k, j).None?
  {
    if k > 0 {
      if Paints(m, k - 1) && Width(m) > 0 {
        assert CharacterIndex(m.framePosition, Width(m), k - 1) != j;
      }
      CellBeforePosition(m, k - 1, j);
    }
  }

  /// A painting order: the (strata, key) pairs of the models painted, one
  /// after the other.
  type Order = seq<(nat, nat)>

  /// Every model `display` may paint fits in the frame.
  predicate AllFit(models: ModelStorage.Models, stratas: ModelStorage.StrataIndex)
  {
    forall s, k :: s <= Config.MaxStrata && s in stratas && k in stratas[s] && k in models ==>
      FitsIn(models[k], FrameLength)
  }

  /// Each entry names a stored model filed under a strata in 0..=100.
  predicate EntriesFiled(models: ModelStorage.Models, stratas: ModelStorage.StrataIndex, order: Order)
  {
    forall i :: 0 <= i < |order| ==>
      order[i].0 <= Config.MaxStrata && order[i].0 in stratas && order[i].1 in stratas[order[i].0] && order[i].1 in models
  }

  /// Lower strata come first.
  predicate Ascending(order: Order)
  {
    forall i, j :: 0 <= i < j < |order| ==> order[i].0 <= order[j].0
  }

  /// No pair is painted twice.
  predicate NoRepeats(order: Order)
  {
    forall i, j :: 0 <= i < j < |order| ==> order[i] != order[j]
  }

  /// Every stored model filed under a strata below `n` is painted.
  predicate CompleteBelow(models: ModelStorage.Models, stratas: ModelStorage.StrataIndex, order: Order, n: nat)
  {
    forall s, k :: s < n && s in stratas && k in stratas[s] && k in models ==> (s, k) in order
  }

  /// The order `display` paints in: every stored model of every strata set
  /// in 0..=100 once, lower strata first.
  predicate DisplayOrder(models: ModelStorage.Models, stratas: ModelStorage.StrataIndex, order: Order)
  {
    EntriesFiled(models, stratas, order) && Ascending(order) && NoRepeats(order) &&
    CompleteBelow(models, stratas, order, Config.MaxStrata + 1)
  }

  predicate OrderFits(models: ModelStorage.Models, order: Order, n: nat)
  {
    forall i :: 0 <= i < |order| ==> order[i].1 in models && FitsIn(models[order[i].1], n)
  }

  /// The frame after painting the models of `order` in turn.
  function PaintAll(frame: string, models: ModelStorage.Models, order: Order): (r: string)
    requires OrderFits(models, order, |frame|)
    ensures |r| == |frame|
  {
    if order == [] then frame
    else
      var m := models[order[|order| - 1].1];
      Painted(PaintAll(frame, models, order[..|order| - 1]), m, |Cells(m)|)
  }

  /// The position in `order` of the last model that draws at index `j`.
  function LastCover(models: ModelStorage.Models, order: Order, j: nat): (r: Option<nat>)
    requires forall i :: 0 <= i < |order| ==>
               order[i].1 in models && EngineRectangle.StringIsValidRectangle(models[order[i].1].appearance.shape)
    ensures r.Some? ==> r.value < |order| && ModelCellAt(models[order[r.value].1], j).Some?
    ensures r.Some? ==> forall i :: r.value < i < |order| ==> ModelCellAt(models[order[i].1], j).None?
    ensures r.None? ==> forall i :: 0 <= i < |order| ==> ModelCellAt(models[order[i].1], j).None?
  {
    if order == [] then None
    else if ModelCellAt(models[order[|order| - 1].1], j).Some? then Some(|order| - 1)
    else
      var prefix := order[..|order| - 1];
      assert forall i :: 0 <= i < |prefix| ==> prefix[i] == order[i];
      LastCover(models, prefix, j)
  }

  /// After painting in order, index `j` shows what the last model drawing
  /// there draws, or the original frame's character when none does.
  lemma {:induction false} PaintAllAt(frame: string, models: ModelStorage.Models, order: Order, j: nat)
    requires OrderFits(models, order, |frame|) && j < |frame|
    ensures var c := LastCover(models, order, j);
            PaintAll(frame, models, order)[j] ==
              if c.Some? then ModelCellAt(models[order[c.value].1], j).value else frame[j]
  {
    if order != [] {
      var m := models[order[|order| - 1].1];
      PaintAllAt(frame, models, order[..|order| - 1], j);
      PaintedAt(PaintAll(frame, models, order[..|order| - 1]), m, |Cells(m)|, j);
    }
  }

  /// The composition rule: in an ascending order, the character shown at
  /// index `j` is that of the last model drawing there, which sits on a
  /// strata at least as high as every other model drawing there; where no
  /// model draws, the frame keeps its character.
  lemma HighestStrataShows(frame: string, models: ModelStorage.Models, order: Order, j: nat)
    requires OrderFits(models, order, |frame|) && Ascending(order) && j < |frame|
    ensures LastCover(models, order, j).None? ==> PaintAll(frame, models, order)[j] == frame[j]
    ensures var c := LastCover(models, order, j);
            c.Some? ==>
              && PaintAll(frame, models, order)[j] == ModelCellAt(models[order[c.value].1], j).value
              && forall i :: 0 <= i < |order| && ModelCellAt(models[order[i].1], j).Some? ==> order[i].0 <= order[c.value].0
  {
    PaintAllAt(frame, models, order, j);
  }

  /// `display`'s loops over strata 0..=100 and, within each, over the keys
  /// filed there (in set iteration order); keys with no stored model are
  /// skipped.
  method Compose(models: ModelStorage.Models, stratas: ModelStorage.StrataIndex)
    returns (frame: string, ghost order: Order)
    requires AllFit(models, stratas)
    ensures DisplayOrder(models, stratas, order)
    ensures OrderFits(models, order, FrameLength)
    ensures frame == PaintAll(BlankFrame(), models, order)
  {
    frame := BlankFrame();
    order := [];
    var s := 0;
    while s <= Config.MaxStrata
      invariant 0 <= s <= Config.MaxStrata + 1
      invariant EntriesFiled(models, stratas, order) && Ascending(order) && NoRepeats(order)
      invariant forall i :: 0 <= i < |order| ==> order[i].0 < s
      invariant CompleteBelow(models, stratas, order, s)
      invariant OrderFits(models, order, FrameLength)
      invariant frame == PaintAll(BlankFrame(), models, order)
    {
      if s in stratas {
        frame, order := ComposeStrata(models, stratas, s, frame, order);
      }
      s := s + 1;
    }
  }

  /// The inner loop of `display` over the keys of strata `s`.
  method ComposeStrata(models: ModelStorage.Models, stratas: ModelStorage.StrataIndex, s: nat,
                       frame0: string, ghost order0: Order)
    returns (frame: string, ghost order: Order)
    requires AllFit(models, stratas) && s <= Config.MaxStrata && s in stratas
    requires EntriesFiled(models, stratas, order0) && Ascending(order0) && NoRepeats(order0)
    requires forall i :: 0 <= i < |order0| ==> order0[i].0 < s
    requires CompleteBelow(models, stratas, order0, s)
    requires OrderFits(models, order0, FrameLength)
    requires frame0 == PaintAll(BlankFrame(), models, order0)
    ensures EntriesFiled(models, stratas, order) && Ascending(order) && NoRepeats(order)
    ensures forall i :: 0 <= i < |order| ==> order[i].0 < s + 1
    ensures CompleteBelow(models, stratas, order, s + 1)
    ensures OrderFits(models, order, FrameLength)
    ensures frame == PaintAll(BlankFrame(), models, order)
  {
    frame, order := frame0, order0;
    var keys := stratas[s];
    var pending := keys;
    StrataPassStart(models, stratas, s, order);
    while pending != {}
      invariant StrataPass(models, stratas, s, pending, order)
      invariant frame == PaintAll(BlankFrame(), models, order)
      decreases |pending|
    {
      var key :| key in pending;
      if key in models {
        var model := models[key];
        frame := ApplyModelInFrame(model, frame);
        StrataPassAdd(models, stratas, s, pending, order, key);
        PaintAllAppend(BlankFrame(), models, order, (s, key));
        order := order + [(s, key)];
      } else {
        StrataPassSkip(models, stratas, s, pending, order, key);
      }
      pending := pending - {key};
    }
    StrataPassDone(models, stratas, s, order);
  }

  /// What holds part way through strata `s`, with `pending` of its keys
  /// still to paint.
  ghost predicate StrataPass(models: ModelStorage.Models, stratas: ModelStorage.StrataIndex, s: nat,
                             pending: set<nat>, order: Order)
  {
    && AllFit(models, stratas) && s <= Config.MaxStrata && s in stratas && pending <= stratas[s]
    && EntriesFiled(models, stratas, order) && Ascending(order) && NoRepeats(order)
    && (forall i :: 0 <= i < |order| ==>
          order[i].0 < s || (order[i].0 == s && order[i].1 in stratas[s] - pending))
    && CompleteBelow(models, stratas, order, s)
    && (forall k :: k in stratas[s] - pending && k in models ==> (s, k) in order)
    && OrderFits(models, order, FrameLength)
  }

  lemma StrataPassStart(models: ModelStorage.Models, stratas: ModelStorage.StrataIndex, s: nat, order: Order)
    requires AllFit(models, stratas) && s <= Config.MaxStrata && s in stratas
    requires EntriesFiled(models, stratas, order) && Ascending(order) && NoRepeats(order)
    requires forall i :: 0 <= i < |order| ==> order[i].0 < s
    requires CompleteBelow(models, stratas, order, s)
    requires OrderFits(models, order, FrameLength)
    ensures StrataPass(models, stratas, s, stratas[s], order)
  {
  }

  /// Painting a stored key of the strata keeps the pass valid.
  lemma StrataPassAdd(models: ModelStorage.Models, stratas: ModelStorage.StrataIndex, s: nat,
                      pending: set<nat>, order: Order, key: nat)
    requires StrataPass(models, stratas, s, pending, order)
    requires key in pending && key in models
    ensures StrataPass(models, stratas, s, pending - {key}, order + [(s, key)])
  {
    AppendEntry(models, stratas, order, s, key);
  }

  /// Skipping a key with no stored model keeps the pass valid.
  lemma StrataPassSkip(models: ModelStorage.Models, stratas: ModelStorage.StrataIndex, s: nat,
                       pending: set<nat>, order: Order, key: nat)
    requires StrataPass(models, stratas, s, pending, order)
    requires key in pending && key !in models
    ensures StrataPass(models, stratas, s, pending - {key}, order)
  {
  }

  lemma StrataPassDone(models: ModelStorage.Models, stratas: ModelStorage.StrataIndex, s: nat, order: Order)
    requires StrataPass(models, stratas, s, {}, order)
    ensures EntriesFiled(models, stratas, order) && Ascending(order) && NoRepeats(order)
    ensures forall i :: 0 <= i < |order| ==> order[i].0 < s + 1
    ensures CompleteBelow(models, stratas, order, s + 1)
    ensures OrderFits(models, order, FrameLength)
  {
  }

  /// Painting one more model paints over the frame painted so far.
  lemma PaintAllAppend(frame: string, models: ModelStorage.Models, order: Order, p: (nat, nat))
    requires OrderFits(models, order, |frame|) && p.1 in models && FitsIn(models[p.1], |frame|)
    ensures OrderFits(models, order + [p], |frame|)
    ensures PaintAll(frame, models, order + [p])
            == Painted(PaintAll(frame, models, order), models[p.1], |Cells(models[p.1])|)
  {
    assert (order + [p])[..|order|] == order;
  }

  /// Appending a pair of strata `s` not yet painted keeps the order valid.
  lemma AppendEntry(models: ModelStorage.Models, stratas: ModelStorage.StrataIndex, order: Order, s: nat, key: nat)
    requires s <= Config.MaxStrata && s in stratas && key in stratas[s] && key in models
    requires forall i :: 0 <= i < |order| ==> order[i].0 <= s
    requires (s, key) !in order
    requires EntriesFiled(models, stratas, order) && Ascending(order) && NoRepeats(order)
    ensures EntriesFiled(models, stratas, order + [(s, key)])
    ensures Ascending(order + [(s, key)]) && NoRepeats(order + [(s, key)])
  {
  }

  class ScreenPrinter {
    const storage: ModelStorage.InternalModels

    constructor New(storage: ModelStorage.InternalModels)
      ensures this.storage == storage
    {
      this.storage := storage;
    }

    /// `display`: the frame of the world as it stands, composed from a blank
    /// frame in the display order of the stored models.
    method Display() returns (frame: string, ghost order: Order)
      requires AllFit(storage.models, storage.modelStratas)
      ensures DisplayOrder(storage.models, storage.modelStratas, order)
      ensures OrderFits(storage.models, order, FrameLength)
      ensures frame == PaintAll(BlankFrame(), storage.models, order)
    {
      frame, order := Compose(storage.models, storage.modelStratas);
    }
  }
}
