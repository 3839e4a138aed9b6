/** The source node that paints a grid of randomly coloured cells (src/sources/random_color.rs). */
module RandomColorSource {

  import opened Util
  import opened Node
  import opened Inputs
  import opened Options
  import opened Video
  import Misc
  import Spectral

  const SplitXKey: string := "split-x"
  const SplitYKey: string := "split-y"
  const UpdateEveryKey: string := "update-every"
  /** Milliseconds between repaints when the option is absent. */
  const DefaultUpdateEvery: real := 1000.0

  /** The node advertises video frames only. */
  const Capabilities: set<Capability> := {Capability.ProvideVideoFrame}

  /** The rectangle from corner `(x1, y1)` included to corner `(x2, y2)` excluded. */
  datatype Cell = Cell(x1: nat, y1: nat, x2: nat, y2: nat) {
    predicate Contains(x: nat, y: nat)
    {
      x1 <= x < x2 && y1 <= y < y2
    }
  }

  /** A colour as red, green and blue bytes. */
  datatype Colour = Colour(red: u8, green: u8, blue: u8)

  /** The split fractions along one axis: a number or a list of numbers, none when absent. */
  function Splits(options: Options, name: string): (r: Result<seq<real>>)
    ensures name !in options ==> r == Ok([])
    ensures name in options ==> r == AsNumbers(options[name])
  {
    match Lookup(options, name)
    case Some(value) => AsNumbers(value)
    case None => Ok([])
  }

  /** A split fraction scaled to an axis of `length` pixels and rounded. */
  function Scale(split: real, length: nat): nat
  {
    Spectral.RoundToUsize(split * length as real)
  }

  function ScaledSplits(splits: seq<real>, length: nat): (r: seq<nat>)
    ensures |r| == |splits|
    ensures forall i | 0 <= i < |splits| :: r[i] == Scale(splits[i], length)
  {
    if splits == [] then []
    else [Scale(splits[0], length)] + ScaledSplits(splits[1..], length)
  }

  /** The borders of the cells along an axis of `length` pixels: 0, then each split scaled to
      the axis and rounded, in the order given, then `length`. */
  function Borders(splits: seq<real>, length: nat): (b: seq<nat>)
    ensures |b| == |splits| + 2 && b[0] == 0 && b[|b| - 1] == length
    ensures forall i | 0 <= i < |splits| :: b[i + 1] == Scale(splits[i], length)
  {
    [0] + ScaledSplits(splits, length) + [length]
  }

  /** `get_borders`: the scaled splits collected in order, then 0 inserted in front and
      `length` pushed at the back. */
  method GetBorders(options: Options, name: string, length: nat) returns (r: Result<seq<nat>>)
    ensures r.Err? <==> Splits(options, name).Err?
    ensures r.Err? ==> r.error == InvalidOptions
    ensures r.Ok? ==> r.value == Borders(Splits(options, name).value, length)
  {
    var splits: seq<real>;
    match Splits(options, name) {
      case Err(e) => return Err(e);
      case Ok(s) => splits := s;
    }
    var scaled := ScaleAll(splits, length);
    var borders := [0] + scaled;
    borders := borders + [length];
    r := Ok(borders);
  }

  /** The collecting loop of `get_borders`: each split scaled and rounded, in order. */
  method ScaleAll(splits: seq<real>, length: nat) returns (borders: seq<nat>)
    ensures borders == ScaledSplits(splits, length)
  {
    borders := [];
    var i := 0;
    while i < |splits|
      invariant 0 <= i <= |splits|
      invariant borders == ScaledSplits(splits, length)[..i]
    {
      var b := Scale(splits[i], length);
      assert ScaledSplits(splits, length)[..i + 1] == ScaledSplits(splits, length)[..i] + [b];
      borders := borders + [b];
      i := i + 1;
    }
    assert ScaledSplits(splits, length)[..i] == ScaledSplits(splits, length);
  }

  /** The cells between horizontal borders `bx` and the two vertical borders `y1`, `y2`, left to
      right. */
  function Row(bx: seq<nat>, y1: nat, y2: nat): (r: seq<Cell>)
    ensures |r| == if |bx| < 2 then 0 else |bx| - 1
  {
    if |bx| < 2 then []
    else seq(|bx| - 1, i requires 0 <= i < |bx| - 1 => Cell(bx[i], y1, bx[i + 1], y2))
  }

  /** The cells between consecutive borders, row by row from the top, each row left to right. */
  function Cells(xs: seq<nat>, ys: seq<nat>): seq<Cell>
    decreases |ys|
  {
    if |ys| < 2 then [] else Row(xs, ys[0], ys[1]) + Cells(xs, ys[1..])
  }

  /** The nested loop over the windows of two borders of `ys` (outer) and of `xs` (inner). */
  method BuildCells(xs: seq<nat>, ys: seq<nat>) returns (cells: seq<Cell>)
    ensures cells == Cells(xs, ys)
  {
    cells := [];
    var j := 0;
    while j + 1 < |ys|
      invariant 0 <= j <= |ys|
      invariant cells + Cells(xs, ys[j..]) == Cells(xs, ys)
    {
      cells := PushRow(cells, xs, ys[j], ys[j + 1]);
      CellsUnfold(xs, ys, j);
      j := j + 1;
    }
  }

  /** The cells from border `j` on are its row followed by the cells from border `j + 1` on. */
  lemma CellsUnfold(xs: seq<nat>, ys: seq<nat>, j: nat)
    requires j + 1 < |ys|
    ensures Cells(xs, ys[j..]) == Row(xs, ys[j], ys[j + 1]) + Cells(xs, ys[j + 1..])
  {
    assert ys[j..][0] == ys[j] && ys[j..][1] == ys[j + 1] && ys[j..][1..] == ys[j + 1..];
  }

  /** The inner loop: pushes the cells of one row, left to right. */
  method PushRow(cells: seq<Cell>, xs: seq<nat>, y1: nat, y2: nat) returns (out: seq<Cell>)
    ensures out == cells + Row(xs, y1, y2)
  {
    ghost var row := Row(xs, y1, y2);
    out := cells;
    var i := 0;
    while i + 1 < |xs|
      invariant 0 <= i <= |row|
      invariant out == cells + row[..i]
    {
      out := out + [Cell(xs[i], y1, xs[i + 1], y2)];
      i := i + 1;
    }
    assert row[..i] == row;
  }

  /** There are `(|ys| - 1) * (|xs| - 1)` cells: one more row than vertical splits and one more
      column than horizontal ones. */
  lemma {:induction false} CellsCount(xs: seq<nat>, ys: seq<nat>)
    requires |xs| >= 2 && |ys| >= 1
    ensures |Cells(xs, ys)| == (|ys| - 1) * (|xs| - 1)
  {
    if |ys| >= 2 {
      CellsCount(xs, ys[1..]);
    }
  }

  /** Where the cell of column `i` and row `j` sits in a grid `w` cells wide. */
  function GridIndex(w: nat, i: nat, j: nat): nat
  {
    j * w + i
  }

  lemma GridIndexStep(w: nat, i: nat, j: nat)
    requires j > 0
    ensures GridIndex(w, i, j) == w + GridIndex(w, i, j - 1)
  {
    assert j * w == (j - 1) * w + w;
  }

  /** Cell `j * (|xs| - 1) + i` spans column `i` and row `j` of the grid. */
  lemma {:induction false} CellAt(xs: seq<nat>, ys: seq<nat>, i: nat, j: nat)
    requires |xs| >= 2 && i < |xs| - 1 && j < |ys| - 1
    ensures GridIndex(|xs| - 1, i, j) < |Cells(xs, ys)|
    ensures Cells(xs, ys)[GridIndex(|xs| - 1, i, j)] == Cell(xs[i], ys[j], xs[i + 1], ys[j + 1])
  {
    var w := |xs| - 1;
    var row := Row(xs, ys[0], ys[1]);
    var rest := Cells(xs, ys[1..]);
    assert |row| == w;
    assert Cells(xs, ys) == row + rest;
    if j > 0 {
      var k := GridIndex(w, i, j - 1);
      CellAt(xs, ys[1..], i, j - 1);
      assert k < |rest| && rest[k] == Cell(xs[i], ys[1..][j - 1], xs[i + 1], ys[1..][j]);
      GridIndexStep(w, i, j);
      assert (row + rest)[w + k] == rest[k];
      assert ys[1..][j - 1] == ys[j] && ys[1..][j] == ys[j + 1];
    } else {
      assert GridIndex(w, i, j) == i;
      assert row[i] == Cell(xs[i], ys[0], xs[i + 1], ys[1]);
      assert (row + rest)[i] == row[i];
    }
  }

  /** Some window of a border list starting at or below `x` and ending above it holds `x`. */
  lemma {:induction false} BorderCovers(b: seq<nat>, x: nat) returns (i: nat)
    requires |b| >= 2 && b[0] <= x < b[|b| - 1]
    ensures i < |b| - 1 && b[i] <= x < b[i + 1]
  {
    if x < b[1] {
      i := 0;
    } else {
      var k := BorderCovers(b[1..], x);
      i := k + 1;
    }
  }

  /** Every pixel of the frame the borders were made for lies in some cell, whatever the order
      of the splits, so the search for a pixel's cell never comes back empty. */
  lemma CellsCover(splitsX: seq<real>, splitsY: seq<real>, width: nat, height: nat, x: nat, y: nat)
    requires x < width && y < height
    ensures exists k | 0 <= k < |Cells(Borders(splitsX, width), Borders(splitsY, height))| ::
              Cells(Borders(splitsX, width), Borders(splitsY, height))[k].Contains(x, y)
  {
    GridCovers(Borders(splitsX, width), Borders(splitsY, height), x, y);
  }

  /** A pixel between the outer borders of both axes lies in some cell. */
  lemma GridCovers(xs: seq<nat>, ys: seq<nat>, x: nat, y: nat)
    requires |xs| >= 2 && xs[0] <= x < xs[|xs| - 1]
    requires |ys| >= 2 && ys[0] <= y < ys[|ys| - 1]
    ensures exists k | 0 <= k < |Cells(xs, ys)| :: Cells(xs, ys)[k].Contains(x, y)
  {
    var i := BorderCovers(xs, x);
    var j := BorderCovers(ys, y);
    CellAt(xs, ys, i, j);
    var k := GridIndex(|xs| - 1, i, j);
    assert Cells(xs, ys)[k].Contains(x, y);
  }

  /** The index of the first cell holding `(x, y)`, or `|cells|` when there is none. */
  function FirstCell(cells: seq<Cell>, x: nat, y: nat): (k: nat)
    ensures k <= |cells|
    ensures k < |cells| ==> cells[k].Contains(x, y)
    ensures forall j | 0 <= j < k :: !cells[j].Contains(x, y)
  {
    if cells == [] then 0
    else if cells[0].Contains(x, y) then 0
    else 1 + FirstCell(cells[1..], x, y)
  }

  /** Sets the red, green and blue bytes, in that order. */
  function Colourize(p: Pixel, c: Colour): Pixel
  {
    SetBlue(SetGreen(SetRed(p, c.red), c.green), c.blue)
  }

  /** The repaint of a single-cell frame: every pixel takes the one colour. */
  function Fill(c: Colour): (nat, nat, Pixel) -> Pixel
  {
    (x: nat, y: nat, p: Pixel) => Colourize(p, c)
  }

  /** The repaint of a grid: each pixel takes the colour of the first cell holding it. */
  function Paint(cells: seq<Cell>, colours: seq<Colour>): (nat, nat, Pixel) -> Pixel
  {
    (x: nat, y: nat, p: Pixel) =>
      var k := FirstCell(cells, x, y);
      if k < |colours| then Colourize(p, colours[k]) else p
  }

  /** What construction keeps: the cells and the period, in frames, of the repaints. */
  datatype Params = Params(cells: seq<Cell>, period: nat)

  /** Frames per repaint: the update interval in milliseconds at `fps` frames per second,
      rounded. */
  function Period(updateEvery: real, fps: nat): (r: nat)
    ensures var frames := updateEvery * fps as real / 1000.0;
            (frames < 0.0 ==> r == 0)
            && (frames >= 0.0 ==> frames - 0.5 < r as real <= frames + 0.5)
    ensures updateEvery == 1000.0 ==> r == fps
  {
    Spectral.RoundToUsize(updateEvery * fps as real / 1000.0)
  }

  /** The `update-every` option: a number, 1000 when absent. */
  function UpdateEvery(options: Options): (r: Result<real>)
    ensures UpdateEveryKey !in options ==> r == Ok(DefaultUpdateEvery)
    ensures UpdateEveryKey in options ==>
              (r.Ok? <==> options[UpdateEveryKey].Number?)
              && (r.Ok? ==> r.value == options[UpdateEveryKey].number)
    ensures r.Err? ==> r.error == InvalidOptions
  {
    var value := match Lookup(options, UpdateEveryKey)
                 case Some(v) => v
                 case None => FromNumber(DefaultUpdateEvery);
    match AsF32(value)
    case Some(t) => Ok(t)
    case None => Err(InvalidOptions)
  }

  /** Construction: no inputs, then both split options, then the update interval. A period that
      rounds to 0 frames fails the counter's assertion. */
  function NewSpec(inputs: seq<NodeRef>, options: Options, config: VideoConfig): (o: Outcome<Params>)
    ensures inputs != [] ==> o == Done(Err(InvalidInputs))
    ensures inputs == [] ==>
              (o == Done(Err(InvalidOptions)) <==>
                 Splits(options, SplitXKey).Err? || Splits(options, SplitYKey).Err? || UpdateEvery(options).Err?)
    ensures o.Panic? <==> inputs == [] && Splits(options, SplitXKey).Ok? && Splits(options, SplitYKey).Ok?
                          && UpdateEvery(options).Ok? && Period(UpdateEvery(options).value, config.fps) == 0
    ensures o.Done? && o.result.Ok? ==>
              && o.result.value.cells == Cells(Borders(Splits(options, SplitXKey).value, config.width),
                                               Borders(Splits(options, SplitYKey).value, config.height))
              && o.result.value.period == Period(UpdateEvery(options).value, config.fps)
              && o.result.value.period > 0
  {
    if inputs != [] then Done(Err(InvalidInputs))
    else
      match Splits(options, SplitXKey)
      case Err(e) => Done(Err(e))
      case Ok(splitX) =>
        match Splits(options, SplitYKey)
        case Err(e) => Done(Err(e))
        case Ok(splitY) =>
          match UpdateEvery(options)
          case Err(e) => Done(Err(e))
          case Ok(updateEvery) =>
            var period := Period(updateEvery, config.fps);
            if period == 0 then Panic("assertion failed: modulo > 0")
            else Done(Ok(Params(Cells(Borders(splitX, config.width), Borders(splitY, config.height)), period)))
  }

  /** `RandomColor::new`, building the borders and the cells step by step. */
  method New(inputs: seq<NodeRef>, options: Options, config: VideoConfig) returns (o: Outcome<Params>)
    ensures o == NewSpec(inputs, options, config)
  {
    match ValidateNone(inputs) {
      case Err(e) => return Done(Err(e));
      case Ok(_) =>
    }
    var splitX := GetBorders(options, SplitXKey, config.width);
    if splitX.Err? {
      return Done(Err(splitX.error));
    }
    var splitY := GetBorders(options, SplitYKey, config.height);
    if splitY.Err? {
      return Done(Err(splitY.error));
    }
    var updateEvery;
    match UpdateEvery(options) {
      case Err(e) => return Done(Err(e));
      case Ok(t) => updateEvery := t;
    }
    var cells := BuildCells(splitX.value, splitY.value);
    var period := Period(updateEvery, config.fps);
    if period == 0 {
      return Panic("assertion failed: modulo > 0");
    }
    o := Done(Ok(Params(cells, period)));
  }

  /** The node's state: its cells, the last frame it served, the repaint counter and the last
      painted frame. */
  class RandomColor {
    const cells: seq<Cell>
    const lastId: LastFrameId
    const counter: Misc.FrameCounter
    const cache: VideoFrame

    ghost predicate Valid()
      reads this, counter, cache
    {
      counter.Valid() && cache.Valid() && cache.width > 0
    }

    /** A zeroed cache of the configured size and a counter of period `p.period`. */
    constructor (p: Params, width: nat, height: nat)
      requires p.period > 0 && width > 0
      ensures Valid() && cells == p.cells
      ensures lastId.id == DefaultFrameId && counter.counter == 0 && counter.modulo == p.period
      ensures cache.width == width && cache.height == height
      ensures forall i | 0 <= i < cache.buf.Length :: cache.buf[i] == 0
      ensures fresh(lastId) && fresh(counter) && fresh(cache) && fresh(cache.buf)
    {
      cells := p.cells;
      lastId := new LastFrameId();
      counter := new Misc.FrameCounter(p.period);
      cache := new VideoFrame(width, height);
    }

    /** A pull into `frame`. The counter advances only for a new frame identity, and the node
        repaints iff the identity is new and the counter was at 0; `colours` are the random
        colours drawn for the cells. A repaint is kept as the cache; otherwise the frame is
        overwritten with the cache. */
    method ProvideVideoFrame(id: FrameId, frame: VideoFrame, colours: seq<Colour>) returns (repainted: bool)
      requires Valid() && frame.Valid()
      requires frame.width == cache.width && frame.height == cache.height && frame.buf != cache.buf
      requires |colours| == |cells| > 0
      modifies lastId, counter, cache.buf, frame.buf
      ensures Valid()
      ensures lastId.id == id
      ensures repainted <==> old(lastId.id) != id && old(counter.counter) == 0
      ensures counter.counter == if old(lastId.id) != id then Misc.Next(counter.modulo, old(counter.counter))
                                 else old(counter.counter)
      ensures repainted && |cells| == 1 ==>
                frame.buf[..] == MapPixels(old(frame.buf[..]), frame.width, Fill(colours[0]))
      ensures repainted && |cells| != 1 ==>
                frame.buf[..] == MapPixels(old(frame.buf[..]), frame.width, Paint(cells, colours))
      ensures repainted ==> cache.buf[..] == frame.buf[..]
      ensures !repainted ==> frame.buf[..] == old(cache.buf[..]) && cache.buf[..] == old(cache.buf[..])
    {
      var changed := lastId.Update(id);
      repainted := false;
      if changed {
        var count := counter.FetchInc();
        repainted := count == 0;
      }
      if repainted {
        if |cells| == 1 {
          frame.Apply(Fill(colours[0]));
        } else {
          frame.Apply(Paint(cells, colours));
        }
        cache.CopyFrom(frame);
      } else {
        frame.CopyFrom(cache);
      }
    }
  }

  /** A single cell, which only happens with no splits at all, spans the whole frame, so the
      single-colour repaint and the grid repaint agree on every pixel of it. */
  lemma SingleCellFillsFrame(width: nat, height: nat, c: Colour, x: nat, y: nat, p: Pixel)
    requires x < width && y < height
    ensures |Cells(Borders([], width), Borders([], height))| == 1
    ensures Paint(Cells(Borders([], width), Borders([], height)), [c])(x, y, p) == Fill(c)(x, y, p)
  {
    var cells := Cells(Borders([], width), Borders([], height));
    assert Borders([], width) == [0, width];
    assert Borders([], height) == [0, height];
    assert Row([0, width], 0, height) == [Cell(0, 0, width, height)];
    assert Cells([0, width], [height]) == [];
    assert cells == [Cell(0, 0, width, height)];
  }
}
