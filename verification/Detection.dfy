/** `detect_sub3.c`: objects are found by flood filling the pixels above a threshold; every
    object gets a label in the map and a list of its pixels with a bounding box. */
module Detection {
  import F = FloodFill
  import FC = FloodConnected
  import FL = FloodLists
  import FS = FloodSteps
  import FP = FloodComponents

  /** A pixel of an object, in physical coordinates, and its value. */
  datatype Entry = Entry(x: int, y: int, flux: real)

  datatype Box = Box(xmin: int, xmax: int, ymin: int, ymax: int)

  /** What a `pixlist_t` holds. */
  datatype PixelList = PixelList(entnum: int, pixels: seq<Entry>, box: Box)

  /** The box after one more pixel, as `setobjrec_pix` widens it. */
  function Widened(b: Box, x: int, y: int): Box {
    Box(if b.xmin > x then x else b.xmin,
        if b.xmin <= x && b.xmax < x then x else b.xmax,
        if b.ymin > y then y else b.ymin,
        if b.ymin <= y && b.ymax < y then y else b.ymax)
  }

  predicate ListedIn(pixels: seq<Entry>, x: int, y: int) {
    exists i :: 0 <= i < |pixels| && pixels[i].x == x && pixels[i].y == y
  }

  predicate Listed(pl: PixelList, x: int, y: int) {
    ListedIn(pl.pixels, x, y)
  }

  /** The four bounds hold for every pixel. */
  predicate Bounds(b: Box, pixels: seq<Entry>) {
    forall i | 0 <= i < |pixels| :: b.xmin <= pixels[i].x <= b.xmax && b.ymin <= pixels[i].y <= b.ymax
  }

  /** Each bound is the coordinate of some pixel. */
  predicate Attained(b: Box, pixels: seq<Entry>) {
    && (exists i :: 0 <= i < |pixels| && pixels[i].x == b.xmin)
    && (exists i :: 0 <= i < |pixels| && pixels[i].x == b.xmax)
    && (exists i :: 0 <= i < |pixels| && pixels[i].y == b.ymin)
    && (exists i :: 0 <= i < |pixels| && pixels[i].y == b.ymax)
  }

  predicate Once(pixels: seq<Entry>) {
    forall i, j | 0 <= i < j < |pixels| :: pixels[i].x != pixels[j].x || pixels[i].y != pixels[j].y
  }

  /** The box is the bounding box of the pixels, and no pixel is listed twice. */
  predicate Exact(pl: PixelList) {
    && Bounds(pl.box, pl.pixels) && Attained(pl.box, pl.pixels)
    && Once(pl.pixels)
  }

  lemma WidenedBounds(b: Box, pixels: seq<Entry>, seed: Entry, e: Entry)
    requires b.xmin <= b.xmax && b.ymin <= b.ymax && Bounds(b, pixels) && Attained(b, [seed] + pixels)
    ensures var w := Widened(b, e.x, e.y);
            w.xmin <= w.xmax && w.ymin <= w.ymax && Bounds(w, pixels + [e]) && Attained(w, [seed] + (pixels + [e]))
  {
    var s, t := [seed] + pixels, [seed] + (pixels + [e]);
    assert t == s + [e] && t[|s|] == e;
    forall i | 0 <= i < |s| ensures t[i] == s[i] {}
  }

  /** A `pixlist_t` while it is filled. */
  class Recorder {
    const entnum: int
    const x0: int
    const y0: int
    var xmin: int
    var xmax: int
    var ymin: int
    var ymax: int
    var pixels: seq<Entry>

    constructor (x: int, y: int, id: int, x0: int, y0: int)
      ensures entnum == id && this.x0 == x0 && this.y0 == y0
      ensures Extent() == Box(x, x, y, y) && pixels == []
    {
      entnum, this.x0, this.y0 := id, x0, y0;
      xmin, xmax, ymin, ymax, pixels := x, x, y, y, [];
    }

    function Extent(): Box
      reads this
    {
      Box(xmin, xmax, ymin, ymax)
    }

    /** `setobjrec_pix`. */
    method SetObjrecPix(x1: int, y1: int, v: real)
      modifies this
      ensures Extent() == Widened(old(Extent()), x1 + x0, y1 + y0)
      ensures pixels == old(pixels) + [Entry(x1 + x0, y1 + y0, v)]
    {
      var x, y := x1 + x0, y1 + y0;
      if xmin > x { xmin := x; } else if xmax < x { xmax := x; }
      if ymin > y { ymin := y; } else if ymax < y { ymax := y; }
      pixels := pixels + [Entry(x, y, v)];
    }
  }

  // ----- One object

  predicate Shaped(pix: seq<seq<real>>, npx: nat, npy: nat) {
    |pix| == npy && forall y | 0 <= y < npy :: |pix[y]| == npx
  }

  /** The map as rows. */
  ghost function Rows(cells: array2<int>): (r: seq<seq<int>>)
    reads cells
    ensures |r| == cells.Length0
    ensures forall j | 0 <= j < |r| :: |r[j]| == cells.Length1 && forall i | 0 <= i < |r[j]| :: r[j][i] == cells[j, i]
  {
    seq(cells.Length0, j requires 0 <= j < cells.Length0 reads cells =>
      seq(cells.Length1, i requires 0 <= i < cells.Length1 reads cells => cells[j, i]))
  }

  /** A value of a grid, and something else outside it. */
  function At<T>(rows: seq<seq<T>>, x: int, y: int, other: T): T {
    if 0 <= y < |rows| && 0 <= x < |rows[y]| then rows[y][x] else other
  }

  /** The image as the fill sees it: pixels above the threshold, and cells that are still 0. */
  ghost function ImageOf(pix: seq<seq<real>>, npx: nat, npy: nat, thres: real, was: seq<seq<int>>): F.Image {
    F.Image(npx, npy, (x, y) => At(pix, x, y, thres) > thres, (x, y) => At(was, x, y, 0) == 0)
  }

  /** The fill from (x, y) follows a null pointer within `steps` rounds. */
  ghost predicate Crashes(pix: seq<seq<real>>, npx: nat, npy: nat, thres: real, was: seq<seq<int>>, x: int, y: int,
          steps: nat) {
    !F.Run(ImageOf(pix, npx, npy, thres, was), F.Begin(x, y), steps).found
  }

  /** What the fill from (x, y) marks in that time. */
  ghost function Marked(pix: seq<seq<real>>, npx: nat, npy: nat, thres: real, was: seq<seq<int>>, x: int, y: int,
          steps: nat): seq<F.Pixel> {
    F.Run(ImageOf(pix, npx, npy, thres, was), F.Begin(x, y), steps).calls
  }

  /** The pixels a fill may report. */
  predicate Reportable(pix: seq<seq<real>>, thres: real, was: seq<seq<int>>, calls: seq<F.Pixel>) {
    && (forall i, j | 0 <= i < j < |calls| :: calls[i] != calls[j])
    && (forall i | 0 <= i < |calls| :: 0 <= calls[i].y < |pix| && 0 <= calls[i].x < |pix[calls[i].y]|
          && pix[calls[i].y][calls[i].x] > thres && At(was, calls[i].x, calls[i].y, 0) == 0)
  }

  /** The fill from (x, y), in the coordinates of the image. */
  method Fill(pix: seq<seq<real>>, npx: nat, npy: nat, x: int, y: int, id: int, thres: real,
              cells: array2<int>, steps: nat) returns (calls: seq<F.Pixel>, crashed: bool)
    requires Shaped(pix, npx, npy) && cells.Length0 == npy && cells.Length1 == npx && id != 0 && steps >= 2
    requires At(pix, x, y, thres) > thres && At(Rows(cells), x, y, 1) == 0
    modifies cells
    ensures crashed == Crashes(pix, npx, npy, thres, old(Rows(cells)), x, y, steps)
    ensures calls == Marked(pix, npx, npy, thres, old(Rows(cells)), x, y, steps)
    ensures Reportable(pix, thres, old(Rows(cells)), calls) && F.Pixel(x, y) in calls
    ensures forall j, i | 0 <= j < npy && 0 <= i < npx ::
              cells[j, i] == if F.Pixel(i, j) in calls then id else old(cells[j, i])
  {
    hide F.Run, F.WellMarked, Reportable;
    ghost var was := Rows(cells);
    ghost var g := ImageOf(pix, npx, npy, thres, was);
    var c := new FL.Canvas(pix, v => v > thres, cells, id, g, (i, j) => At(was, i, j, 0));
    var fill := new FL.Filler();
    assert FL.Painted(c, []);
    var n, ended := fill.DoFlood(c, x, y, steps);
    F.SeedMarked(g, x, y, steps);
    calls, crashed := fill.calls, fill.crashed;
    Reported(pix, npx, npy, thres, was, calls);
  }

  lemma Reported(pix: seq<seq<real>>, npx: nat, npy: nat, thres: real, was: seq<seq<int>>, calls: seq<F.Pixel>)
    requires Shaped(pix, npx, npy) && F.WellMarked(ImageOf(pix, npx, npy, thres, was), calls)
    ensures Reportable(pix, thres, was, calls)
  {
    forall i | 0 <= i < |calls|
      ensures 0 <= calls[i].y < |pix| && 0 <= calls[i].x < |pix[calls[i].y]|
              && pix[calls[i].y][calls[i].x] > thres && At(was, calls[i].x, calls[i].y, 0) == 0
    {
      assert calls[i] in calls;
    }
  }

  /** The reported pixels as list entries. */
  function Entries(pix: seq<seq<real>>, calls: seq<F.Pixel>, x0: int, y0: int): (r: seq<Entry>)
    ensures |r| == |calls|
    ensures forall i | 0 <= i < |calls| ::
              r[i] == Entry(calls[i].x + x0, calls[i].y + y0, At(pix, calls[i].x, calls[i].y, 0.0))
  {
    seq(|calls|, i requires 0 <= i < |calls| =>
      Entry(calls[i].x + x0, calls[i].y + y0, At(pix, calls[i].x, calls[i].y, 0.0)))
  }

  /** The list that `setobjrec_pix` builds from the reports of a fill. */
  method Record(pix: seq<seq<real>>, calls: seq<F.Pixel>, x: int, y: int, id: int, x0: int, y0: int)
    returns (pl: PixelList)
    requires forall i | 0 <= i < |calls| :: 0 <= calls[i].y < |pix| && 0 <= calls[i].x < |pix[calls[i].y]|
    ensures pl.entnum == id && pl.pixels == Entries(pix, calls, x0, y0)
    ensures Bounds(pl.box, pl.pixels) && Attained(pl.box, [Entry(x, y, 0.0)] + pl.pixels)
  {
    hide Bounds, Attained, Entries, Widened;
    ghost var seed := Entry(x, y, 0.0);
    var rec := new Recorder(x, y, id, x0, y0);
    FirstBox(rec.Extent(), seed);
    for k := 0 to |calls|
      invariant rec.pixels == Entries(pix, calls[..k], x0, y0) && fresh(rec)
      invariant rec.xmin <= rec.xmax && rec.ymin <= rec.ymax
      invariant Bounds(rec.Extent(), rec.pixels) && Attained(rec.Extent(), [seed] + rec.pixels)
    {
      var v := pix[calls[k].y][calls[k].x];
      WidenedBounds(rec.Extent(), rec.pixels, seed, Entry(calls[k].x + x0, calls[k].y + y0, v));
      EntriesSnoc(pix, calls, k, x0, y0);
      rec.SetObjrecPix(calls[k].x, calls[k].y, v);
    }
    assert calls[..|calls|] == calls;
    pl := PixelList(id, rec.pixels, rec.Extent());
  }

  lemma FirstBox(b: Box, seed: Entry)
    requires b == Box(seed.x, seed.x, seed.y, seed.y)
    ensures Bounds(b, []) && Attained(b, [seed] + []) && forall pix: seq<seq<real>>, x0, y0 :: Entries(pix, [], x0, y0) == []
  {
    assert ([seed] + [])[0] == seed;
  }

  lemma EntriesSnoc(pix: seq<seq<real>>, calls: seq<F.Pixel>, k: nat, x0: int, y0: int)
    requires k < |calls|
    ensures Entries(pix, calls[..k + 1], x0, y0) == Entries(pix, calls[..k], x0, y0)
         + [Entry(calls[k].x + x0, calls[k].y + y0, At(pix, calls[k].x, calls[k].y, 0.0))]
  {}

  lemma ListedIff(pix: seq<seq<real>>, calls: seq<F.Pixel>, x0: int, y0: int, pixels: seq<Entry>, x: int, y: int)
    requires pixels == Entries(pix, calls, x0, y0)
    ensures ListedIn(pixels, x, y) <==> F.Pixel(x - x0, y - y0) in calls
  {
    if F.Pixel(x - x0, y - y0) in calls {
      var k :| 0 <= k < |calls| && calls[k] == F.Pixel(x - x0, y - y0);
      assert pixels[k].x == x && pixels[k].y == y;
    }
    if ListedIn(pixels, x, y) {
      var k :| 0 <= k < |pixels| && pixels[k].x == x && pixels[k].y == y;
      assert calls[k] == F.Pixel(x - x0, y - y0);
    }
  }

  lemma ListedOnce(pix: seq<seq<real>>, calls: seq<F.Pixel>, x0: int, y0: int, pixels: seq<Entry>)
    requires pixels == Entries(pix, calls, x0, y0) && forall i, j | 0 <= i < j < |calls| :: calls[i] != calls[j]
    ensures Once(pixels)
  {
    forall i, j | 0 <= i < j < |pixels|
      ensures pixels[i].x != pixels[j].x || pixels[i].y != pixels[j].y
    {
      assert calls[i] != calls[j];
    }
  }

  /** The list of a fill: exact bounds, every pixel once, the seed among them. */
  lemma RecordExact(pix: seq<seq<real>>, calls: seq<F.Pixel>, x: int, y: int, x0: int, y0: int, pl: PixelList)
    requires forall i, j | 0 <= i < j < |calls| :: calls[i] != calls[j]
    requires pl.pixels == Entries(pix, calls, x0, y0) && F.Pixel(x - x0, y - y0) in calls
    requires Bounds(pl.box, pl.pixels) && Attained(pl.box, [Entry(x, y, 0.0)] + pl.pixels)
    ensures Exact(pl) && forall i, j :: Listed(pl, i, j) <==> F.Pixel(i - x0, j - y0) in calls
  {
    hide Bounds, Attained, Entries, ListedIn, Once;
    forall i, j
      ensures Listed(pl, i, j) <==> F.Pixel(i - x0, j - y0) in calls
    {
      ListedIff(pix, calls, x0, y0, pl.pixels, i, j);
    }
    ListedOnce(pix, calls, x0, y0, pl.pixels);
    AttainedWithin(pl.box, Entry(x, y, 0.0), pl.pixels);
  }

  /** The entries are bright pixels on cells that were still 0. */
  predicate Fresh(pix: seq<seq<real>>, thres: real, was: seq<seq<int>>, x0: int, y0: int, pixels: seq<Entry>) {
    forall k | 0 <= k < |pixels| ::
      && At(pix, pixels[k].x - x0, pixels[k].y - y0, thres) == pixels[k].flux > thres
      && At(was, pixels[k].x - x0, pixels[k].y - y0, 0) == 0
  }

  lemma RecordFresh(pix: seq<seq<real>>, thres: real, was: seq<seq<int>>, calls: seq<F.Pixel>, x0: int, y0: int)
    requires Reportable(pix, thres, was, calls)
    ensures Fresh(pix, thres, was, x0, y0, Entries(pix, calls, x0, y0))
  {}

  lemma AttainedWithin(b: Box, seed: Entry, pixels: seq<Entry>)
    requires Attained(b, [seed] + pixels) && ListedIn(pixels, seed.x, seed.y)
    ensures Attained(b, pixels)
  {
    var s := [seed] + pixels;
    var k :| 0 <= k < |pixels| && pixels[k].x == seed.x && pixels[k].y == seed.y;
    forall i | 0 < i < |s| ensures s[i] == pixels[i - 1] {}
    var a :| 0 <= a < |s| && s[a].x == b.xmin;
    assert pixels[if a == 0 then k else a - 1].x == b.xmin;
    a :| 0 <= a < |s| && s[a].x == b.xmax;
    assert pixels[if a == 0 then k else a - 1].x == b.xmax;
    a :| 0 <= a < |s| && s[a].y == b.ymin;
    assert pixels[if a == 0 then k else a - 1].y == b.ymin;
    a :| 0 <= a < |s| && s[a].y == b.ymax;
    assert pixels[if a == 0 then k else a - 1].y == b.ymax;
  }

  /** The list holds the marked pixels, in physical coordinates. */
  ghost predicate ListIs(pl: PixelList, x0: int, y0: int, marked: seq<F.Pixel>) {
    forall i, j :: Listed(pl, i, j) <==> F.Pixel(i - x0, j - y0) in marked
  }

  /** `extract_pixlist`, from the pixel (x, y) in physical coordinates; `steps` bounds the fill.
      There is no list if the fill crashes. */
  method ExtractPixlist(pix: seq<seq<real>>, npx: nat, npy: nat, x: int, y: int, id: int, thres: real,
                        x0: int, y0: int, cells: array2<int>, steps: nat)
    returns (pl: PixelList, npix: nat, crashed: bool)
    requires Shaped(pix, npx, npy) && cells.Length0 == npy && cells.Length1 == npx && id != 0 && steps >= 2
    requires At(pix, x - x0, y - y0, thres) > thres && At(Rows(cells), x - x0, y - y0, 1) == 0
    modifies cells
    ensures crashed == Crashes(pix, npx, npy, thres, old(Rows(cells)), x - x0, y - y0, steps)
    ensures !crashed ==> pl.entnum == id && npix == |pl.pixels| && Listed(pl, x, y) && Exact(pl)
    ensures !crashed ==> forall j, i | 0 <= j < npy && 0 <= i < npx ::
              cells[j, i] == if Listed(pl, i + x0, j + y0) then id else old(cells[j, i])
    ensures !crashed ==> Fresh(pix, thres, old(Rows(cells)), x0, y0, pl.pixels)
    ensures !crashed ==> ListIs(pl, x0, y0, Marked(pix, npx, npy, thres, old(Rows(cells)), x - x0, y - y0, steps))
    ensures Reportable(pix, thres, old(Rows(cells)), Marked(pix, npx, npy, thres, old(Rows(cells)), x - x0, y - y0, steps))
  {
    hide Exact, Bounds, Attained, Entries, Listed, Fresh, Once, Crashes, Marked;
    var calls;
    calls, crashed := Fill(pix, npx, npy, x - x0, y - y0, id, thres, cells, steps);
    if crashed { return PixelList(id, [], Box(x, x, y, y)), 0, true; }
    pl := Record(pix, calls, x, y, id, x0, y0);
    RecordExact(pix, calls, x, y, x0, y0, pl);
    RecordFresh(pix, thres, old(Rows(cells)), calls, x0, y0);
    npix := |calls|;
  }

  // ----- All objects

  /** The image and where it lies in physical coordinates. */
  datatype Frame = Frame(pix: seq<seq<real>>, npx: nat, npy: nat, thres: real, x0: int, y0: int)

  predicate OnImage(f: Frame, rows: seq<seq<int>>) {
    |rows| == f.npy && forall j | 0 <= j < f.npy :: |rows[j]| == f.npx
  }

  predicate Bright(f: Frame, i: int, j: int) {
    At(f.pix, i, j, f.thres) > f.thres
  }

  /** A list as it should be: its number, exact bounds, and bright pixels with their values. */
  predicate GoodList(f: Frame, pl: PixelList, id: int) {
    && pl.entnum == id && Exact(pl)
    && (forall k | 0 <= k < |pl.pixels| ::
          At(f.pix, pl.pixels[k].x - f.x0, pl.pixels[k].y - f.y0, f.thres) == pl.pixels[k].flux > f.thres)
  }

  /** The labels of the map and the lists agree: label k marks exactly the pixels of list k. */
  predicate Labelled(f: Frame, rows: seq<seq<int>>, all: seq<PixelList>) {
    && OnImage(f, rows)
    && (forall k | 0 <= k < |all| :: GoodList(f, all[k], k + 1))
    && (forall j, i | 0 <= j < f.npy && 0 <= i < f.npx :: 0 <= rows[j][i] <= |all|)
    && (forall k, j, i | 0 <= k < |all| && 0 <= j < f.npy && 0 <= i < f.npx ::
          rows[j][i] == k + 1 <==> Listed(all[k], i + f.x0, j + f.y0))
  }

  /** One more object: its pixels had label 0 and now have the next one. */
  lemma LabelledGrows(f: Frame, rows: seq<seq<int>>, rows': seq<seq<int>>, all: seq<PixelList>, pl: PixelList)
    requires Labelled(f, rows, all) && OnImage(f, rows') && GoodList(f, pl, |all| + 1)
    requires Fresh(f.pix, f.thres, rows, f.x0, f.y0, pl.pixels)
    requires forall j, i | 0 <= j < f.npy && 0 <= i < f.npx ::
               rows'[j][i] == if Listed(pl, i + f.x0, j + f.y0) then |all| + 1 else rows[j][i]
    ensures Labelled(f, rows', all + [pl])
  {
    hide GoodList;
    var more := all + [pl];
    forall k, j, i | 0 <= k < |more| && 0 <= j < f.npy && 0 <= i < f.npx
      ensures rows'[j][i] == k + 1 <==> Listed(more[k], i + f.x0, j + f.y0)
    {
      if Listed(pl, i + f.x0, j + f.y0) { WasBlank(f, rows, pl, i, j); }
    }
  }

  lemma WasBlank(f: Frame, rows: seq<seq<int>>, pl: PixelList, i: int, j: int)
    requires OnImage(f, rows) && 0 <= j < f.npy && 0 <= i < f.npx
    requires Fresh(f.pix, f.thres, rows, f.x0, f.y0, pl.pixels) && Listed(pl, i + f.x0, j + f.y0)
    ensures rows[j][i] == 0
  {}

  /** The scan has left no bright pixel without a label before (i, j). */
  predicate Scanned(f: Frame, rows: seq<seq<int>>, i: int, j: int)
    requires OnImage(f, rows)
  {
    forall y, x | 0 <= y < f.npy && 0 <= x < f.npx && (y < j || (y == j && x < i)) :: Bright(f, x, y) ==> rows[y][x] != 0
  }

  /** The objects that reach the last line, in the order they were found. */
  function Edged(all: seq<PixelList>, vymax: int): seq<PixelList> {
    if all == [] then [] else
      Edged(all[..|all| - 1], vymax)
      + (if all[|all| - 1].box.ymax == vymax then [all[|all| - 1]] else [])
  }

  /** The others that have pixels enough. */
  function Kept(all: seq<PixelList>, vymax: int, npixMin: int): seq<PixelList> {
    if all == [] then [] else
      Kept(all[..|all| - 1], vymax, npixMin)
      + (if all[|all| - 1].box.ymax != vymax && |all[|all| - 1].pixels| >= npixMin then [all[|all| - 1]] else [])
  }

  lemma OneMoreObject(all: seq<PixelList>, pl: PixelList, vymax: int, npixMin: int)
    ensures Edged(all + [pl], vymax) == Edged(all, vymax) + (if pl.box.ymax == vymax then [pl] else [])
    ensures Kept(all + [pl], vymax, npixMin)
         == Kept(all, vymax, npixMin) + (if pl.box.ymax != vymax && |pl.pixels| >= npixMin then [pl] else [])
  {
    assert (all + [pl])[..|all|] == all;
  }

  lemma ListedIsBright(f: Frame, pl: PixelList, id: int, i: int, j: int)
    requires GoodList(f, pl, id) && Listed(pl, i + f.x0, j + f.y0)
    ensures Bright(f, i, j)
  {
    hide Exact;
    var k :| 0 <= k < |pl.pixels| && pl.pixels[k].x == i + f.x0 && pl.pixels[k].y == j + f.y0;
    assert At(f.pix, pl.pixels[k].x - f.x0, pl.pixels[k].y - f.y0, f.thres) == pl.pixels[k].flux;
  }

  lemma LabelTells(f: Frame, rows: seq<seq<int>>, all: seq<PixelList>, i: int, j: int)
    requires Labelled(f, rows, all) && 0 <= j < f.npy && 0 <= i < f.npx
    ensures rows[j][i] == 0 || (1 <= rows[j][i] <= |all| && Listed(all[rows[j][i] - 1], i + f.x0, j + f.y0))
    ensures forall k | 0 <= k < |all| && Listed(all[k], i + f.x0, j + f.y0) :: rows[j][i] == k + 1
    ensures rows[j][i] != 0 ==> Bright(f, i, j)
  {
    hide GoodList, Listed;
    if rows[j][i] != 0 {
      assert GoodList(f, all[rows[j][i] - 1], rows[j][i]);
      ListedIsBright(f, all[rows[j][i] - 1], rows[j][i], i, j);
    }
  }

  /** At the end of the scan every pixel above the threshold lies on exactly one list, the one
      its label names, and every other pixel has label 0 and lies on none. */
  lemma EveryBrightPixelOnce(f: Frame, rows: seq<seq<int>>, all: seq<PixelList>, i: int, j: int)
    requires Labelled(f, rows, all) && Scanned(f, rows, 0, f.npy) && Shaped(f.pix, f.npx, f.npy)
    requires 0 <= j < f.npy && 0 <= i < f.npx
    ensures f.pix[j][i] > f.thres <==> rows[j][i] != 0
    ensures f.pix[j][i] > f.thres <==> exists k :: 0 <= k < |all| && Listed(all[k], i + f.x0, j + f.y0)
    ensures forall k, l | 0 <= k < |all| && 0 <= l < |all| && Listed(all[k], i + f.x0, j + f.y0) && Listed(all[l], i + f.x0, j + f.y0) :: k == l
  {
    assert OnImage(f, rows) && (Bright(f, i, j) ==> rows[j][i] != 0);
    hide Labelled, Scanned, Listed;
    LabelTells(f, rows, all, i, j);
    assert Bright(f, i, j) <==> f.pix[j][i] > f.thres;
  }

  /** The scan was stopped by a fill that crashes, after it had found the objects `all`. */
  ghost predicate StoppedAt(f: Frame, rows: seq<seq<int>>, all: seq<PixelList>, i: nat, j: nat, steps: nat) {
    && j < f.npy && i < f.npx && Labelled(f, rows, all) && Scanned(f, rows, i, j)
    && Bright(f, i, j) && rows[j][i] == 0 && Crashes(f.pix, f.npx, f.npy, f.thres, rows, i, j, steps)
  }

  // ----- Objects are connected components

  /** The pixels above the threshold. */
  ghost function BrightImage(f: Frame): F.Image {
    ImageOf(f.pix, f.npx, f.npy, f.thres, [])
  }

  /** The components of the bright pixels have no pockets, and `steps` is enough for their fills. */
  ghost predicate Regular(f: Frame, steps: nat) {
    FP.NoPockets(BrightImage(f)) && FP.Enough(BrightImage(f), steps)
  }

  function LabelAt(rows: seq<seq<int>>, p: F.Pixel): int {
    At(rows, p.x, p.y, 0)
  }

  /** Every object found is one whole component of the bright pixels. */
  ghost predicate Whole(f: Frame, rows: seq<seq<int>>) {
    forall p, q | LabelAt(rows, p) != 0 :: LabelAt(rows, q) == LabelAt(rows, p) <==> FC.Connected(BrightImage(f), p, q)
  }

  lemma BrightPasses(f: Frame, p: F.Pixel)
    requires Shaped(f.pix, f.npx, f.npy)
    ensures F.Passes(BrightImage(f), p.x, p.y) <==> 0 <= p.x < f.npx && 0 <= p.y < f.npy && Bright(f, p.x, p.y)
  {}

  /** A bright pixel without a label at which the scan arrives is the first of its component. */
  lemma ScanIsFirst(f: Frame, rows: seq<seq<int>>, i: nat, j: nat)
    requires Shaped(f.pix, f.npx, f.npy) && OnImage(f, rows) && Scanned(f, rows, i, j) && Whole(f, rows)
    requires j < f.npy && i < f.npx && Bright(f, i, j) && rows[j][i] == 0
    ensures FP.First(BrightImage(f), F.Pixel(i, j))
  {
    var g, s := BrightImage(f), F.Pixel(i, j);
    BrightPasses(f, s);
    hide FC.Connected, Bright, F.Passes;
    forall q | FC.Connected(g, s, q)
      ensures !FP.Before(q, s)
    {
      FP.ConnectedPasses(g, s, q);
      FP.ConnectedBack(g, s, q);
      BrightPasses(f, q);
      assert LabelAt(rows, q) != 0 ==> LabelAt(rows, s) == LabelAt(rows, q);
    }
  }

  lemma OneMoreWhole(f: Frame, rows: seq<seq<int>>, rows': seq<seq<int>>, s: F.Pixel, id: int)
    requires Whole(f, rows) && LabelAt(rows, s) == 0 && id != 0 && F.Passes(BrightImage(f), s.x, s.y)
    requires forall p :: LabelAt(rows, p) != id
    requires forall p :: LabelAt(rows', p) == if FC.Connected(BrightImage(f), s, p) then id else LabelAt(rows, p)
    ensures Whole(f, rows')
  {
    hide FC.Connected, F.Passes;
    var g := BrightImage(f);
    forall p, q | LabelAt(rows', p) != 0
      ensures LabelAt(rows', q) == LabelAt(rows', p) <==> FC.Connected(g, p, q)
    {
      if FC.Connected(g, s, p) {
        if FC.Connected(g, s, q) {
          FP.ConnectedBack(g, s, p);
          FP.ConnectedOn(g, p, s, q);
        }
        if FC.Connected(g, p, q) { FP.ConnectedOn(g, s, p, q); }
      } else {
        if FC.Connected(g, s, q) && FC.Connected(g, p, q) {
          FP.ConnectedBack(g, p, q);
          FP.ConnectedOn(g, s, q, p);
        }
      }
    }
  }

  /** On regular frames the next object is the whole component of its first pixel. */
  lemma ObjectIsComponent(f: Frame, rows: seq<seq<int>>, all: seq<PixelList>, i: nat, j: nat, steps: nat)
    requires Regular(f, steps) && Shaped(f.pix, f.npx, f.npy)
    requires Labelled(f, rows, all) && OnImage(f, rows) && Scanned(f, rows, i, j) && Whole(f, rows)
    requires j < f.npy && i < f.npx && Bright(f, i, j) && rows[j][i] == 0
    ensures !Crashes(f.pix, f.npx, f.npy, f.thres, rows, i, j, steps)
    ensures forall p ::
              p in Marked(f.pix, f.npx, f.npy, f.thres, rows, i, j, steps) <==> FC.Connected(BrightImage(f), F.Pixel(i, j), p)
  {
    var g, h, s := BrightImage(f), ImageOf(f.pix, f.npx, f.npy, f.thres, rows), F.Pixel(i, j);
    assert FS.Alike(g, h);
    hide Labelled, FC.Connected, FP.First, FP.NoPockets, FP.Enough, F.Run, Scanned;
    ScanIsFirst(f, rows, i, j);
    FP.FillIsComponent(g, h, s, steps);
    forall p | FC.Connected(g, s, p)
      ensures h.blank(p.x, p.y)
    {
      FP.ConnectedBack(g, s, p);
      assert LabelAt(rows, p) != 0 ==> LabelAt(rows, s) == LabelAt(rows, p);
    }
  }

  lemma WholeGrows(f: Frame, rows: seq<seq<int>>, rows': seq<seq<int>>, all: seq<PixelList>, pl: PixelList, i: nat,
          j: nat, steps: nat)
    requires Regular(f, steps) && Shaped(f.pix, f.npx, f.npy)
    requires Labelled(f, rows, all) && OnImage(f, rows) && OnImage(f, rows') && Scanned(f, rows, i, j) && Whole(f, rows)
    requires j < f.npy && i < f.npx && Bright(f, i, j) && rows[j][i] == 0
    requires ListIs(pl, f.x0, f.y0, Marked(f.pix, f.npx, f.npy, f.thres, rows, i, j, steps))
    requires forall j, i | 0 <= j < f.npy && 0 <= i < f.npx ::
               rows'[j][i] == if Listed(pl, i + f.x0, j + f.y0) then |all| + 1 else rows[j][i]
    ensures Whole(f, rows')
  {
    var g, s := BrightImage(f), F.Pixel(i, j);
    BrightPasses(f, s);
    ObjectIsComponent(f, rows, all, i, j, steps);
    var marked := Marked(f.pix, f.npx, f.npy, f.thres, rows, i, j, steps);
    hide FC.Connected, Regular, Scanned, Whole, Marked, ListIs, F.Passes, Bright, Labelled, LabelAt;
    forall p
      ensures LabelAt(rows, p) != |all| + 1
      ensures LabelAt(rows', p) == if FC.Connected(g, s, p) then |all| + 1 else LabelAt(rows, p)
    {
      assert p in marked <==> FC.Connected(g, s, p);
      if FC.Connected(g, s, p) {
        FP.ConnectedPasses(g, s, p);
        BrightPasses(f, p);
      }
      NewLabel(f, rows, rows', all, pl, marked, p);
    }
    assert LabelAt(rows, s) == 0 by { SeedLabel(f, rows, s); }
    OneMoreWhole(f, rows, rows', s, |all| + 1);
  }

  lemma SeedLabel(f: Frame, rows: seq<seq<int>>, p: F.Pixel)
    requires OnImage(f, rows) && 0 <= p.y < f.npy && 0 <= p.x < f.npx
    ensures LabelAt(rows, p) == rows[p.y][p.x]
  {}

  lemma NewLabel(f: Frame, rows: seq<seq<int>>, rows': seq<seq<int>>, all: seq<PixelList>, pl: PixelList,
          marked: seq<F.Pixel>, p: F.Pixel)
    requires Labelled(f, rows, all) && OnImage(f, rows) && OnImage(f, rows') && ListIs(pl, f.x0, f.y0, marked)
    requires forall j, i | 0 <= j < f.npy && 0 <= i < f.npx ::
               rows'[j][i] == if Listed(pl, i + f.x0, j + f.y0) then |all| + 1 else rows[j][i]
    requires p in marked ==> 0 <= p.x < f.npx && 0 <= p.y < f.npy
    ensures LabelAt(rows, p) != |all| + 1
    ensures LabelAt(rows', p) == if p in marked then |all| + 1 else LabelAt(rows, p)
  {
    hide Listed, GoodList;
    assert F.Pixel(p.x, p.y) == p;
    assert Listed(pl, p.x + f.x0, p.y + f.y0) <==> F.Pixel(p.x, p.y) in marked;
  }

  lemma LabelledOnImage(f: Frame, rows: seq<seq<int>>, all: seq<PixelList>)
    requires Labelled(f, rows, all)
    ensures OnImage(f, rows)
  {}

  lemma BrightLabelled(f: Frame, rows: seq<seq<int>>, p: F.Pixel)
    requires OnImage(f, rows) && Scanned(f, rows, 0, f.npy) && 0 <= p.y < f.npy && 0 <= p.x < f.npx && Bright(f, p.x, p.y)
    ensures LabelAt(rows, p) == rows[p.y][p.x] != 0
  {}

  lemma SameLabel(f: Frame, rows: seq<seq<int>>, p: F.Pixel, q: F.Pixel)
    requires Whole(f, rows) && LabelAt(rows, p) != 0
    ensures LabelAt(rows, q) == LabelAt(rows, p) <==> FC.Connected(BrightImage(f), p, q)
  {}

  /** When the scan is done, two bright pixels are on the same list exactly when they are connected. */
  lemma ObjectsAreComponents(f: Frame, rows: seq<seq<int>>, all: seq<PixelList>, p: F.Pixel, q: F.Pixel)
    requires Labelled(f, rows, all) && Scanned(f, rows, 0, f.npy) && Whole(f, rows)
    requires 0 <= p.y < f.npy && 0 <= p.x < f.npx && Bright(f, p.x, p.y)
    requires 0 <= q.y < f.npy && 0 <= q.x < f.npx && Bright(f, q.x, q.y)
    ensures FC.Connected(BrightImage(f), p, q) <==>
            exists k :: 0 <= k < |all| && Listed(all[k], p.x + f.x0, p.y + f.y0) && Listed(all[k], q.x + f.x0, q.y + f.y0)
  {
    hide Labelled, Scanned, Listed, FC.Connected, Whole, Bright, LabelAt;
    LabelledOnImage(f, rows, all);
    BrightLabelled(f, rows, p);
    BrightLabelled(f, rows, q);
    SameLabel(f, rows, p, q);
    LabelTells(f, rows, all, p.x, p.y);
    LabelTells(f, rows, all, q.x, q.y);
  }

  // ----- The first fill of the scan

  /** No pixel before (i, j) is bright. */
  predicate Dark(f: Frame, i: int, j: int) {
    forall y, x | 0 <= y < f.npy && 0 <= x < f.npx && (y < j || (y == j && x < i)) :: !Bright(f, x, y)
  }

  /** The fill from the first bright pixel crashes. */
  ghost predicate CrashesAtFirst(f: Frame, was: seq<seq<int>>, steps: nat) {
    exists i, j :: 0 <= j < f.npy && 0 <= i < f.npx && Bright(f, i, j) && Dark(f, i, j)
                   && Crashes(f.pix, f.npx, f.npy, f.thres, was, i, j, steps)
  }

  /** The first bright pixel, if the scan has passed it, was not the seed of a fill that crashes. */
  ghost predicate FirstIsWell(f: Frame, was: seq<seq<int>>, rows: seq<seq<int>>, i: int, j: int, steps: nat) {
    && (Dark(f, i, j) ==> rows == was)
    && (forall y, x | 0 <= y < f.npy && 0 <= x < f.npx && (y < j || (y == j && x < i)) && Bright(f, x, y) && Dark(f, x, y) ::
          !Crashes(f.pix, f.npx, f.npy, f.thres, was, x, y, steps))
  }

  lemma FirstPassed(f: Frame, was: seq<seq<int>>, rows: seq<seq<int>>, rows': seq<seq<int>>, i: nat, j: nat, steps: nat)
    requires FirstIsWell(f, was, rows, i, j, steps) && j < f.npy && i < f.npx
    requires OnImage(f, was) && forall y, x | 0 <= y < f.npy && 0 <= x < f.npx :: was[y][x] == 0
    requires OnImage(f, rows)
    requires if Bright(f, i, j) && rows[j][i] == 0 then !Crashes(f.pix, f.npx, f.npy, f.thres, rows, i, j, steps)
             else rows' == rows
    ensures FirstIsWell(f, was, rows', i + 1, j, steps)
  {
    hide Crashes, Bright;
    assert Dark(f, i + 1, j) ==> Dark(f, i, j) && !Bright(f, i, j);
  }

  lemma FirstNextLine(f: Frame, was: seq<seq<int>>, rows: seq<seq<int>>, j: nat, steps: nat)
    requires FirstIsWell(f, was, rows, f.npx, j, steps)
    ensures FirstIsWell(f, was, rows, 0, j + 1, steps)
  {
    hide Crashes, Bright;
    assert Dark(f, 0, j + 1) ==> Dark(f, f.npx, j);
  }

  /** The scan has passed the pixel. */
  predicate Passed(f: Frame, x: int, y: int, i: int, j: int) {
    0 <= y < f.npy && 0 <= x < f.npx && (y < j || (y == j && x < i))
  }

  /** The first object is what the fill from the first bright pixel marks on the map as it was. */
  ghost predicate FirstObject(f: Frame, was: seq<seq<int>>, rows: seq<seq<int>>, all: seq<PixelList>, i: int, j: int,
          steps: nat) {
    && (Dark(f, i, j) <==> all == [])
    && forall y, x, p | Passed(f, x, y, i, j) && Bright(f, x, y) && Dark(f, x, y) ::
         LabelAt(rows, p) == 1 <==> p in Marked(f.pix, f.npx, f.npy, f.thres, was, x, y, steps)
  }

  lemma FirstObjectGrows(f: Frame, was: seq<seq<int>>, rows: seq<seq<int>>, rows': seq<seq<int>>,
          all: seq<PixelList>, pl: PixelList,
                         i: nat, j: nat, steps: nat)
    requires FirstObject(f, was, rows, all, i, j, steps) && (Dark(f, i, j) ==> rows == was)
    requires Labelled(f, rows, all) && OnImage(f, rows) && OnImage(f, rows') && j < f.npy && i < f.npx && Bright(f, i, j)
    requires Reportable(f.pix, f.thres, rows, Marked(f.pix, f.npx, f.npy, f.thres, rows, i, j, steps))
    requires Shaped(f.pix, f.npx, f.npy)
    requires ListIs(pl, f.x0, f.y0, Marked(f.pix, f.npx, f.npy, f.thres, rows, i, j, steps))
    requires forall j, i | 0 <= j < f.npy && 0 <= i < f.npx ::
               rows'[j][i] == if Listed(pl, i + f.x0, j + f.y0) then |all| + 1 else rows[j][i]
    ensures FirstObject(f, was, rows', all + [pl], i + 1, j, steps)
  {
    var marked := Marked(f.pix, f.npx, f.npy, f.thres, rows, i, j, steps);
    forall p
      ensures LabelAt(rows', p) == if p in marked then |all| + 1 else LabelAt(rows, p)
      ensures p in marked ==> LabelAt(rows, p) == 0
      ensures LabelAt(rows, p) != |all| + 1
    {
      if p in marked {
        var k :| 0 <= k < |marked| && marked[k] == p;
        assert 0 <= marked[k].y < |f.pix|;
      }
      NewLabel(f, rows, rows', all, pl, marked, p);
    }
    hide Labelled, Marked, ListIs, Listed, Bright, LabelAt, Reportable;
    assert !Dark(f, i + 1, j) by { assert Bright(f, i, j); }
    assert forall x, y | Passed(f, x, y, i + 1, j) && Dark(f, x, y) :: Passed(f, x, y, i, j) || (x == i && y == j);
    assert forall x, y | Passed(f, x, y, i, j) && Bright(f, x, y) :: !Dark(f, i, j);
  }

  lemma FirstObjectPassed(f: Frame, was: seq<seq<int>>, rows: seq<seq<int>>, all: seq<PixelList>, i: nat, j: nat, steps: nat)
    requires FirstObject(f, was, rows, all, i, j, steps) && OnImage(f, rows) && j < f.npy && i < f.npx
    requires !Bright(f, i, j) || rows[j][i] != 0
    requires Dark(f, i, j) ==> rows[j][i] == 0
    ensures FirstObject(f, was, rows, all, i + 1, j, steps)
  {
    hide Marked, Bright, LabelAt;
    assert Dark(f, i, j) && !Bright(f, i, j) ==> Dark(f, i + 1, j);
    assert Dark(f, i + 1, j) ==> Dark(f, i, j);
  }

  lemma FirstObjectLine(f: Frame, was: seq<seq<int>>, rows: seq<seq<int>>, all: seq<PixelList>, j: nat, steps: nat)
    requires FirstObject(f, was, rows, all, f.npx, j, steps)
    ensures FirstObject(f, was, rows, all, 0, j + 1, steps)
  {
    hide Marked, Bright, LabelAt;
    assert Dark(f, f.npx, j) <==> Dark(f, 0, j + 1);
  }

  /** `detect_new3`. `all` are the objects in the order they were found, the dropped ones included. */
  method DetectNew3(f: Frame, npixMin: int, cells: array2<int>, steps: nat)
    returns (out: seq<PixelList>, edged: seq<PixelList>, crashed: bool, ghost all: seq<PixelList>)
    requires Shaped(f.pix, f.npx, f.npy) && cells.Length0 == f.npy && cells.Length1 == f.npx && steps >= 2
    requires forall j, i | 0 <= j < f.npy && 0 <= i < f.npx :: cells[j, i] == 0
    modifies cells
    ensures !crashed ==> Labelled(f, Rows(cells), all) && Scanned(f, Rows(cells), 0, f.npy)
    ensures crashed ==> exists rows, i, j :: StoppedAt(f, rows, all, i, j, steps)
    ensures edged == Edged(all, f.y0 + f.npy - 1)
    ensures out == Kept(all, f.y0 + f.npy - 1, npixMin)
    ensures Regular(f, steps) ==> !crashed && Whole(f, Rows(cells))
    ensures CrashesAtFirst(f, old(Rows(cells)), steps) ==> crashed
    ensures !crashed ==> FirstObject(f, old(Rows(cells)), Rows(cells), all, 0, f.npy, steps)
  {
    hide Labelled, Edged, Kept, Scanned, Exact, Fresh, Crashes, Reportable, ListIs, Marked;
    hide Regular, Whole, FirstIsWell, FirstObject, Dark;
    var vymax := f.y0 + f.npy - 1;
    out, edged, crashed, all := [], [], false, [];
    var nobj := 0;
    ghost var was := Rows(cells);
    NoObjects(f, was, vymax, npixMin);
    NothingSeen(f, was, steps);
    for j := 0 to f.npy
      invariant !crashed && nobj == |all| && Labelled(f, Rows(cells), all)
      invariant OnImage(f, Rows(cells)) && Scanned(f, Rows(cells), 0, j)
      invariant edged == Edged(all, vymax) && out == Kept(all, vymax, npixMin)
      invariant FirstObject(f, was, Rows(cells), all, 0, j, steps)
      invariant FirstIsWell(f, was, Rows(cells), 0, j, steps) && (Regular(f, steps) ==> Whole(f, Rows(cells)))
    {
      for i := 0 to f.npx
        invariant !crashed && nobj == |all| && Labelled(f, Rows(cells), all)
        invariant OnImage(f, Rows(cells)) && Scanned(f, Rows(cells), i, j)
        invariant edged == Edged(all, vymax) && out == Kept(all, vymax, npixMin)
        invariant FirstObject(f, was, Rows(cells), all, i, j, steps)
        invariant FirstIsWell(f, was, Rows(cells), i, j, steps) && (Regular(f, steps) ==> Whole(f, Rows(cells)))
      {
        ghost var rows := Rows(cells);
        if f.pix[j][i] > f.thres && cells[j, i] == 0 {
          var pl, npix;
          pl, npix, crashed :=
            ExtractPixlist(f.pix, f.npx, f.npy, i + f.x0, j + f.y0, nobj + 1, f.thres, f.x0, f.y0, cells, steps);
          if Regular(f, steps) { ObjectIsComponent(f, rows, all, i, j, steps); }
          if crashed {
            assert StoppedAt(f, rows, all, i, j, steps);
            return;
          }
          if Regular(f, steps) { WholeGrows(f, rows, Rows(cells), all, pl, i, j, steps); }
          FirstRows(f, was, rows, i, j, steps);
          FirstObjectGrows(f, was, rows, Rows(cells), all, pl, i, j, steps);
          nobj := nobj + 1;
          NewObject(f, rows, Rows(cells), all, pl, i, j);
          OneMoreObject(all, pl, vymax, npixMin);
          all := all + [pl];
          if pl.box.ymax == vymax {
            edged := edged + [pl];
          } else if npix >= npixMin {
            out := out + [pl];
          }
        } else {
          PassedOver(f, rows, i, j);
          FirstRows(f, was, rows, i, j, steps);
          FirstObjectPassed(f, was, rows, all, i, j, steps);
        }
        FirstPassed(f, was, rows, Rows(cells), i, j, steps);
      }
      NextLine(f, Rows(cells), j);
      FirstNextLine(f, was, Rows(cells), j, steps);
      FirstObjectLine(f, was, Rows(cells), all, j, steps);
    }
    AllHeard(f, was, Rows(cells), steps);
  }

  lemma NothingSeen(f: Frame, rows: seq<seq<int>>, steps: nat)
    requires OnImage(f, rows) && forall j, i | 0 <= j < f.npy && 0 <= i < f.npx :: rows[j][i] == 0
    ensures FirstIsWell(f, rows, rows, 0, 0, steps) && FirstObject(f, rows, rows, [], 0, 0, steps) && Whole(f, rows)
  {}

  lemma FirstRows(f: Frame, was: seq<seq<int>>, rows: seq<seq<int>>, i: int, j: int, steps: nat)
    requires FirstIsWell(f, was, rows, i, j, steps)
    ensures Dark(f, i, j) ==> rows == was
  {
    hide Dark, Crashes;
  }

  lemma AllHeard(f: Frame, was: seq<seq<int>>, rows: seq<seq<int>>, steps: nat)
    requires FirstIsWell(f, was, rows, 0, f.npy, steps)
    ensures !CrashesAtFirst(f, was, steps)
  {
    hide Crashes;
  }

  lemma NoObjects(f: Frame, rows: seq<seq<int>>, vymax: int, npixMin: int)
    requires OnImage(f, rows) && forall j, i | 0 <= j < f.npy && 0 <= i < f.npx :: rows[j][i] == 0
    ensures Labelled(f, rows, []) && Scanned(f, rows, 0, 0)
    ensures Edged([], vymax) == [] && Kept([], vymax, npixMin) == []
  {}

  lemma NewObject(f: Frame, rows: seq<seq<int>>, rows': seq<seq<int>>, all: seq<PixelList>, pl: PixelList, i: nat, j: nat)
    requires Labelled(f, rows, all) && OnImage(f, rows) && OnImage(f, rows') && Scanned(f, rows, i, j)
    requires j < f.npy && i < f.npx && Listed(pl, i + f.x0, j + f.y0)
    requires pl.entnum == |all| + 1 && Exact(pl) && Fresh(f.pix, f.thres, rows, f.x0, f.y0, pl.pixels)
    requires forall j, i | 0 <= j < f.npy && 0 <= i < f.npx ::
               rows'[j][i] == if Listed(pl, i + f.x0, j + f.y0) then |all| + 1 else rows[j][i]
    ensures Labelled(f, rows', all + [pl]) && Scanned(f, rows', i + 1, j)
  {
    assert GoodList(f, pl, |all| + 1) by { hide Exact; }
    hide GoodList, Fresh, Labelled, Exact;
    LabelledGrows(f, rows, rows', all, pl);
  }

  lemma PassedOver(f: Frame, rows: seq<seq<int>>, i: nat, j: nat)
    requires OnImage(f, rows) && Scanned(f, rows, i, j) && j < f.npy && i < f.npx
    requires !Bright(f, i, j) || rows[j][i] != 0
    ensures Scanned(f, rows, i + 1, j)
  {}

  lemma NextLine(f: Frame, rows: seq<seq<int>>, j: nat)
    requires OnImage(f, rows) && j < f.npy && Scanned(f, rows, f.npx, j)
    ensures Scanned(f, rows, 0, j + 1)
  {}
}
