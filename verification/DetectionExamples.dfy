/** Frames on which the object detector goes wrong: one ends the program, on the other two
    components become one object. */
module DetectionExamples {
  import F = FloodFill
  import FC = FloodConnected
  import FS = FloodSteps
  import FP = FloodComponents
  import FloodCrash
  import FloodExample
  import opened Detection

  /** Pixels above and below a threshold. */
  function FrameOf(npx: nat, npy: nat, bright: (int, int) -> bool): Frame {
    Frame(seq(npy, y => seq(npx, x => if bright(x, y) then 1.0 else 0.0)), npx, npy, 0.5, 0, 0)
  }

  lemma FrameShows(g: F.Image, f: Frame, was: seq<seq<int>>)
    requires f == FrameOf(g.npx, g.npy, g.pass)
    ensures Shaped(f.pix, f.npx, f.npy) && FS.Alike(g, ImageOf(f.pix, f.npx, f.npy, f.thres, was))
    ensures forall x, y | 0 <= x < g.npx && 0 <= y < g.npy :: Bright(f, x, y) <==> F.Passes(g, x, y)
  {}

  function CrashFrame(): Frame {
    FrameOf(10, 7, FloodCrash.EXAMPLE.pass)
  }

  /** The first bright pixel of the scan is (5, 0), and whatever the map holds, its fill crashes in
      step 32: `detect_new3` never gets through this frame. */
  lemma DetectorCrashes(was: seq<seq<int>>, steps: nat)
    requires steps >= 32
    ensures CrashesAtFirst(CrashFrame(), was, steps)
  {
    var f, g := CrashFrame(), FloodCrash.EXAMPLE;
    var h := ImageOf(f.pix, f.npx, f.npy, f.thres, was);
    FrameShows(g, f, was);
    assert Bright(f, 5, 0) && Dark(f, 5, 0);
    FloodCrash.NullPointer();
    hide FS.Alike, F.Run, Bright, Dark;
    FS.RunIgnoresCalls(g, h, F.Begin(5, 0), [], steps);
    assert Crashes(f.pix, f.npx, f.npy, f.thres, was, 5, 0, steps);
  }

  function MergeFrame(): Frame {
    FrameOf(10, 5, FloodExample.EXAMPLE.pass)
  }

  /** The first object holds the first pixel (0, 0) and also (8, 4), which is not connected with it. */
  lemma DetectorMerges(was: seq<seq<int>>, rows: seq<seq<int>>, all: seq<PixelList>, steps: nat)
    requires steps >= 34 && was == seq(5, _ => seq(10, _ => 0)) && FirstObject(MergeFrame(), was, rows, all, 0, 5, steps)
    ensures LabelAt(rows, F.Pixel(0, 0)) == LabelAt(rows, F.Pixel(8, 4)) == 1
    ensures !FC.Connected(BrightImage(MergeFrame()), F.Pixel(0, 0), F.Pixel(8, 4)) && !Whole(MergeFrame(), rows)
  {
    var f := MergeFrame();
    MergeMarks(was, steps);
    hide FS.Alike, F.Run, Bright, Dark, FC.Connected, Marked, LabelAt, BrightImage, MergeFrame;
    assert Passed(f, 0, 0, 0, 5) by { MergeSize(); }
    assert forall p :: LabelAt(rows, p) == 1 <==> p in Marked(f.pix, f.npx, f.npy, f.thres, was, 0, 0, steps);
  }

  lemma MergeSize()
    ensures MergeFrame().npx == 10 && MergeFrame().npy == 5
  {}

  /** The fill from (0, 0), the first bright pixel, marks both. */
  lemma MergeMarks(was: seq<seq<int>>, steps: nat)
    requires steps >= 34 && was == seq(5, _ => seq(10, _ => 0))
    ensures var f := MergeFrame();
      && Bright(f, 0, 0) && Dark(f, 0, 0) && !FC.Connected(BrightImage(f), F.Pixel(0, 0), F.Pixel(8, 4))
      && F.Pixel(0, 0) in Marked(f.pix, f.npx, f.npy, f.thres, was, 0, 0, steps)
      && F.Pixel(8, 4) in Marked(f.pix, f.npx, f.npy, f.thres, was, 0, 0, steps)
  {
    var f, g := MergeFrame(), FloodExample.EXAMPLE;
    var h := ImageOf(f.pix, f.npx, f.npy, f.thres, was);
    FrameShows(g, f, was);
    FrameShows(g, f, []);
    assert F.Passes(g, 0, 0) && F.Passes(h, 0, 0) && h.blank(0, 0) && h.blank(8, 4);
    hide FS.Alike, F.Run, FC.Connected, F.Passes, FloodExample.Bright;
    FloodExample.WrongPixel(steps);
    FP.ConnectedAlike(g, BrightImage(f), F.Pixel(0, 0), F.Pixel(8, 4));
    FloodExample.MarkedOn(h, steps);
    F.SeedMarked(h, 0, 0, steps);
  }
}
