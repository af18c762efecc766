/**
 The volume meter widget with its views abstracted away. The container's
 children become a sequence of layout descriptions (bars and separators).
 The list of bar views becomes a sequence of Filled/Empty shades: the
 colours the bars are painted with. An `int` cursor holds the current volume.
 */
module VolumeView {
  import opened JavaLang

  /** The colour a bar is painted with: the "filled" or the "empty" colour. */
  datatype Shade = Filled | Empty

  datatype LayoutStyle = Triangle | Flat

  /**
   The layout of one bar. A flat bar is a single view. A triangle bar is a
   vertical pair: an unpainted top part and a painted bottom part, with the
   given layout weights.
   */
  datatype BarShape = FlatBar | TriangleBar(topWeight: int, bottomWeight: int)

  datatype Child = Bar(shape: BarShape) | Separator

  /** How a call ended: normally, or by an IndexOutOfBoundsException from the list of bar views. */
  datatype Outcome = Done | IndexOutOfBounds

  /** The state saved for the view: a bundle whose "Progress" entry may hold an int, or some other parcelable. */
  datatype SavedState = Bundle(progress: Option<int32>) | OtherState

  // ---------------------------------------------------------------------
  // The layout that initViews builds

  /**
   `mTotalViews = (mNumberOfBars * 2) - 1`, computed in `int` arithmetic: the
   exact 2n - 1 for 1 <= n <= 2^30, a negative count for larger n, and always
   congruent to 2n - 1 modulo 2^32.
   */
  function TotalViews(numberOfBars: int32): (total: int32)
    ensures 1 <= numberOfBars <= 0x4000_0000 ==> total == 2 * numberOfBars - 1
    ensures numberOfBars > 0x4000_0000 ==> total < 0
    ensures (total - (2 * numberOfBars - 1)) % 0x1_0000_0000 == 0
  {
    Wrap32(numberOfBars * 2 - 1)
  }

  /** The number of even indices below `total`: how many bars a loop over `total` children makes. */
  function BarsIn(total: int): nat {
    if total <= 0 then 0 else (total + 1) / 2
  }

  /** The layout of bar number `j` (counting from 1) among `numberOfBars`. */
  function BarShapeFor(style: LayoutStyle, numberOfBars: int, j: int): BarShape {
    match style
    case Triangle => TriangleBar(numberOfBars - j, j)
    case Flat => FlatBar
  }

  /** Child `i` of the container: a bar at even indices, a separator at odd ones. */
  function ChildAt(style: LayoutStyle, numberOfBars: int, i: int): Child {
    if i % 2 == 0 then Bar(BarShapeFor(style, numberOfBars, i / 2 + 1)) else Separator
  }

  /** Bar `k` (counting from 0) is painted filled when its number k + 1 is at most `filledBars`. */
  function InitialShade(k: int, filledBars: int): Shade {
    if k + 1 <= filledBars then Filled else Empty
  }

  function Layout(style: LayoutStyle, numberOfBars: int32): seq<Child> {
    var total := TotalViews(numberOfBars);
    seq(if total < 0 then 0 else total, i => ChildAt(style, numberOfBars, i))
  }

  function InitialShades(numberOfBars: int32, filledBars: int): seq<Shade> {
    seq(BarsIn(TotalViews(numberOfBars)), k => InitialShade(k, filledBars))
  }

  /** The shades `setVolume(v)` paints over `count` bars: bar i is filled when i <= v. */
  function VolumeShades(count: nat, v: int): seq<Shade> {
    seq(count, i => if i <= v then Filled else Empty)
  }

  /** The displayed bars are exactly the first `volume` ones. */
  predicate FilledPrefix(views: seq<Shade>, volume: int) {
    && 0 <= volume <= |views|
    && forall i :: 0 <= i < |views| ==> (views[i] == Filled <==> i < volume)
  }

  // ---------------------------------------------------------------------
  // The widget

  class VolumeView {
    const numberOfBars: int32       // mNumberOfBars
    const filledBars: int32         // mFilledBars
    const layoutStyle: LayoutStyle  // mLayoutStyle
    var children: seq<Child>        // the children of mContainer
    var views: seq<Shade>           // mViews, by the colour of each bar view
    var volume: int32               // mVolume
    var totalViews: int32           // mTotalViews

    /** The list of bar views holds at most Integer.MAX_VALUE elements. */
    ghost predicate Valid()
      reads this
    {
      |views| <= INT_MAX
    }

    /** The constructors with `initializeClass`; the attribute values arrive as parameters. */
    constructor (numberOfBars: int32, filledBars: int32, layoutStyle: LayoutStyle)
      ensures this.numberOfBars == numberOfBars && this.filledBars == filledBars
      ensures this.layoutStyle == layoutStyle
      ensures children == [] && views == [] && volume == 0 && totalViews == 0
      ensures Valid()
    {
      this.numberOfBars := numberOfBars;
      this.filledBars := filledBars;
      this.layoutStyle := layoutStyle;
      children := [];
      views := [];
      volume := 0;
      totalViews := 0;
    }

    /**
     `initViews`: appends 2n - 1 children, bars at even indices and separators
     between them, and one bar view per bar, the first `filledBars` filled.
     */
    method InitViews()
      requires Valid()
      requires |views| + BarsIn(TotalViews(numberOfBars)) <= INT_MAX
      modifies this
      ensures Valid()
      ensures totalViews == TotalViews(numberOfBars) && volume == filledBars
      ensures children == old(children) + Layout(layoutStyle, numberOfBars)
      ensures views == old(views) + InitialShades(numberOfBars, filledBars)
      ensures old(views) == [] && 0 <= filledBars <= numberOfBars <= 0x4000_0000 ==> FilledPrefix(views, volume)
    {
      ghost var children0, views0 := children, views;
      var j := 1;
      totalViews := TotalViews(numberOfBars);
      volume := filledBars;
      var i := 0;
      while i < totalViews
        invariant 0 <= i <= (if totalViews < 0 then 0 else totalViews)
        invariant totalViews == TotalViews(numberOfBars) && volume == filledBars
        invariant j == BarsIn(i) + 1
        invariant children == children0 + Layout(layoutStyle, numberOfBars)[..i]
        invariant views == views0 + InitialShades(numberOfBars, filledBars)[..BarsIn(i)]
      {
        if i % 2 == 0 {
          var shade := if j <= filledBars then Filled else Empty;
          match layoutStyle {
            case Triangle =>
              views := views + [shade];
              children := children + [Bar(TriangleBar(numberOfBars - j, j))];
            case Flat =>
              views := views + [shade];
              children := children + [Bar(FlatBar)];
          }
          j := j + 1;
        } else {
          children := children + [Separator];
        }
        assert BarsIn(i + 1) == BarsIn(i) + (if i % 2 == 0 then 1 else 0);
        assert Layout(layoutStyle, numberOfBars)[..i + 1]
            == Layout(layoutStyle, numberOfBars)[..i] + [ChildAt(layoutStyle, numberOfBars, i)];
        assert InitialShades(numberOfBars, filledBars)[..BarsIn(i + 1)]
            == InitialShades(numberOfBars, filledBars)[..BarsIn(i)]
               + (if i % 2 == 0 then [InitialShade(BarsIn(i), filledBars)] else []);
        i := i + 1;
      }
      assert Layout(layoutStyle, numberOfBars)[..i] == Layout(layoutStyle, numberOfBars);
      assert InitialShades(numberOfBars, filledBars)[..BarsIn(i)] == InitialShades(numberOfBars, filledBars);
      if views0 == [] && 0 <= filledBars <= numberOfBars <= 0x4000_0000 {
        InitialPrefix(numberOfBars, filledBars);
      }
    }

    /**
     `setVolume(v)`: when v is below the number of bars, the cursor becomes v
     and bar i is painted filled exactly when i <= v; otherwise nothing changes.
     */
    method SetVolume(v: int32)
      requires Valid()
      modifies this
      ensures Valid() && children == old(children) && totalViews == old(totalViews)
      ensures v < |old(views)| ==> volume == v && views == VolumeShades(|old(views)|, v)
      ensures v >= |old(views)| ==> volume == old(volume) && views == old(views)
    {
      if v < |views| {
        volume := v;
        var i := 0;
        while i < |views|
          invariant 0 <= i <= |views| == |old(views)|
          invariant children == old(children) && totalViews == old(totalViews) && volume == v
          invariant forall k :: 0 <= k < i ==> views[k] == (if k <= v then Filled else Empty)
        {
          views := views[i := if i <= v then Filled else Empty];
          i := i + 1;
        }
      }
    }

    /**
     `volumeUp`: with the cursor inside the list it fills the bar at the cursor
     and advances the cursor by one; a negative cursor makes the list lookup
     throw before anything changes; at or past the end nothing happens.
     */
    method VolumeUp() returns (outcome: Outcome)
      requires Valid()
      modifies this
      ensures Valid() && children == old(children) && totalViews == old(totalViews)
      ensures old(volume) < 0 ==> outcome == IndexOutOfBounds && views == old(views) && volume == old(volume)
      ensures 0 <= old(volume) < |old(views)| ==>
                outcome == Done && views == old(views)[old(volume) := Filled] && volume == old(volume) + 1
      ensures old(volume) >= |old(views)| ==> outcome == Done && views == old(views) && volume == old(volume)
      ensures FilledPrefix(old(views), old(volume)) ==> FilledPrefix(views, volume)
    {
      if volume < |views| {
        if volume < 0 {
          return IndexOutOfBounds;
        }
        views := views[volume := Filled];
        var next: int := volume + 1;
        if next > |views| {
          next := |views| - 1;
        }
        volume := next;
      }
      outcome := Done;
    }

    /**
     `volumeDown`: the cursor goes down by one (in `int` arithmetic). If it is
     then non-negative, the bar at the cursor is emptied, or the lookup throws
     when the cursor lies past the list; if it is negative, it is reset to 0.
     */
    method VolumeDown() returns (outcome: Outcome)
      requires Valid()
      modifies this
      ensures Valid() && children == old(children) && totalViews == old(totalViews)
      ensures var v := Wrap32(old(volume) - 1);
              if v < 0 then
                outcome == Done && views == old(views) && volume == 0
              else if v < |old(views)| then
                outcome == Done && views == old(views)[v := Empty] && volume == v
              else
                outcome == IndexOutOfBounds && views == old(views) && volume == v
      ensures volume >= 0
      ensures FilledPrefix(old(views), old(volume)) ==> FilledPrefix(views, volume)
    {
      volume := Wrap32(volume - 1);
      if volume >= 0 {
        if volume >= |views| {
          return IndexOutOfBounds;
        }
        views := views[volume := Empty];
      } else {
        volume := 0;
      }
      outcome := Done;
    }

    /** `onSaveInstanceState`: the saved bundle carries the cursor under "Progress". */
    method OnSaveInstanceState() returns (state: SavedState)
      ensures state == Bundle(Some(volume))
    {
      state := Bundle(Some(volume));
    }

    /**
     `onRestoreInstanceState`: a bundle is re-applied through `setVolume`
     (`getInt` reads 0 when "Progress" holds no int); any other state leaves
     the bars alone.
     */
    method OnRestoreInstanceState(state: SavedState)
      requires Valid()
      modifies this
      ensures Valid() && children == old(children) && totalViews == old(totalViews)
      ensures state.OtherState? ==> volume == old(volume) && views == old(views)
      ensures state.Bundle? ==>
                var v := match state.progress case Some(p) => p case None => 0;
                if v < |old(views)| then volume == v && views == VolumeShades(|old(views)|, v)
                else volume == old(volume) && views == old(views)
    {
      match state
      case Bundle(progress) =>
        var v := match progress case Some(p) => p case None => 0;
        SetVolume(v);
      case OtherState =>
    }
  }

  /**
   Saving one view and restoring into another (or the same) brings the cursor
   back whenever it is below the target's number of bars.
   */
  method SaveAndRestore(source: VolumeView, target: VolumeView)
    requires target.Valid()
    requires source.volume < |target.views|
    modifies target
    ensures target.volume == old(source.volume)
    ensures target.views == VolumeShades(|old(target.views)|, old(source.volume))
  {
    var state := source.OnSaveInstanceState();
    target.OnRestoreInstanceState(state);
  }

  /**
   Restoring the state of a meter whose filled bars are its first `mVolume`
   into a view with more bars than that: the cursor comes back, but the
   restored meter shows `mVolume` + 1 bars, one more than the saved one did.
   */
  method RestoreShowsOneMore(source: VolumeView, target: VolumeView)
    requires target.Valid()
    requires FilledPrefix(source.views, source.volume) && source.volume < |target.views|
    modifies target
    ensures target.volume == old(source.volume)
    ensures FilledPrefix(target.views, target.volume + 1) && !FilledPrefix(target.views, target.volume)
  {
    SaveAndRestore(source, target);
    SetVolumeFillsOneMore(|target.views|, target.volume);
  }

  // ---------------------------------------------------------------------
  // Properties of the model

  /**
   With n bars (1 <= n <= 2^30, so that 2n - 1 does not overflow) the layout
   has 2n - 1 children, bars at the even indices and separators at the odd
   ones, and there is one bar view per bar.
   */
  lemma LayoutShape(style: LayoutStyle, n: int32, filledBars: int)
    requires 1 <= n <= 0x4000_0000
    ensures |Layout(style, n)| == 2 * n - 1
    ensures forall i :: 0 <= i < 2 * n - 1 ==> (Layout(style, n)[i].Bar? <==> i % 2 == 0)
    ensures |InitialShades(n, filledBars)| == n
  {
  }

  /**
   With no bars, or so many that 2n - 1 wraps around to a negative `int`,
   nothing is laid out.
   */
  lemma LayoutEmptyOutsideRange(style: LayoutStyle, n: int32, filledBars: int)
    requires -0x4000_0000 < n <= 0 || n > 0x4000_0000
    ensures Layout(style, n) == [] && InitialShades(n, filledBars) == []
  {
  }

  /** A bar count of -2^30 wraps 2n - 1 around to Integer.MAX_VALUE children. */
  lemma NegativeBarCountWraps()
    ensures TotalViews(-0x4000_0000) == INT_MAX
  {
  }

  /**
   In the triangle style bar j (counting from 1) has top weight n - j and
   bottom weight j: the weights of every bar add up to n.
   */
  lemma TriangleWeights(n: int32, k: nat)
    requires 1 <= n <= 0x4000_0000 && k < n
    ensures Layout(Triangle, n)[2 * k] == Bar(TriangleBar(n - (k + 1), k + 1))
    ensures Layout(Triangle, n)[2 * k].shape.topWeight + Layout(Triangle, n)[2 * k].shape.bottomWeight == n
  {
  }

  /** After `initViews` on an empty widget the first `filledBars` bars are filled, the rest empty. */
  lemma InitialPrefix(n: int32, filledBars: int)
    requires 0 <= filledBars <= n <= 0x4000_0000
    ensures FilledPrefix(InitialShades(n, filledBars), filledBars)
  {
  }

  /** `volumeUp` inside the list turns a displayed prefix of length v into one of length v + 1. */
  lemma UpExtendsPrefix(views: seq<Shade>, v: int)
    requires FilledPrefix(views, v) && v < |views|
    ensures FilledPrefix(views[v := Filled], v + 1)
  {
  }

  /** `volumeDown` from v > 0 turns a displayed prefix of length v into one of length v - 1. */
  lemma DownShrinksPrefix(views: seq<Shade>, v: int)
    requires FilledPrefix(views, v) && v > 0
    ensures FilledPrefix(views[v - 1 := Empty], v - 1)
  {
  }

  /**
   `setVolume(v)` does not keep the prefix invariant: it fills v + 1 bars
   and sets the cursor to v, so the set of displayed bars is the prefix of
   length v + 1 and never the prefix of length v.
   */
  lemma SetVolumeFillsOneMore(count: nat, v: int)
    requires 0 <= v < count
    ensures FilledPrefix(VolumeShades(count, v), v + 1)
    ensures !FilledPrefix(VolumeShades(count, v), v)
  {
    assert VolumeShades(count, v)[v] == Filled;
  }

  /** `setVolume(v)` with a negative v empties every bar. */
  lemma NegativeVolumeEmptiesAll(count: nat, v: int)
    requires v < 0
    ensures FilledPrefix(VolumeShades(count, v), 0)
  {
  }

  /** No empty bar below a filled one. */
  predicate Gapless(views: seq<Shade>) {
    forall i, j :: 0 <= i < j < |views| && views[j] == Filled ==> views[i] == Filled
  }

  /** A displayed prefix has no gap. */
  lemma PrefixIsGapless(views: seq<Shade>, volume: int)
    requires FilledPrefix(views, volume)
    ensures Gapless(views)
  {
  }

  /**
   `volumeDown` right after `setVolume(v)` (0 < v < count) empties bar v - 1
   while bar v stays filled: the displayed bars have a gap, so they are no
   prefix of any length.
   */
  lemma SetThenDownLeavesGap(count: nat, v: int)
    requires 0 < v < count
    ensures !Gapless(VolumeShades(count, v)[v - 1 := Empty])
  {
    var views := VolumeShades(count, v)[v - 1 := Empty];
    assert views[v] == Filled && views[v - 1] == Empty;
  }
}
