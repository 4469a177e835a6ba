/** `Clock.getScreenType`: the device class, computed from the display's short
    side in density-independent pixels the first time it is asked for and
    remembered for the life of the process. */
module ScreenType {
  import opened Optional

  datatype DeviceClass = Phone | Hybrid | Tablet

  /** `DisplayMetrics.DENSITY_DEFAULT`. */
  const DENSITY_DEFAULT: nat := 160

  /** What the window manager and display metrics report: the raw size in
      pixels and `DisplayMetrics.DENSITY_DEVICE`. */
  datatype Display = Display(rawHeight: nat, rawWidth: nat, densityDevice: nat)

  predicate ValidDisplay(d: Display) {
    d.densityDevice > 0
  }

  /** The short side in dp. The operands are non-negative, so Dafny's division
      agrees with Java's truncating `/`. */
  function ShortSideDp(d: Display): nat
    requires ValidDisplay(d)
  {
    var shortSize := if d.rawHeight < d.rawWidth then d.rawHeight else d.rawWidth;
    shortSize * DENSITY_DEFAULT / d.densityDevice
  }

  /** The memoised device class (`mDeviceType`, None standing for -1) and
      the class `getScreenType` returns. The display is measured, and the
      density divided by, only while nothing is memoised. */
  function GetScreenType(memo: Option<DeviceClass>, d: Display): (r: (DeviceClass, Option<DeviceClass>))
    requires memo.Some? || ValidDisplay(d)
    ensures r.1 == Some(r.0)
    ensures memo.Some? ==> r.0 == memo.value
    ensures memo.None? ==> (r.0 == Phone <==> ShortSideDp(d) < 600)
    ensures memo.None? ==> (r.0 == Hybrid <==> 600 <= ShortSideDp(d) < 720)
    ensures memo.None? ==> (r.0 == Tablet <==> 720 <= ShortSideDp(d))
  {
    match memo
    case Some(t) => (t, memo)
    case None =>
      var dp := ShortSideDp(d);
      var t := if dp < 600 then Phone else if dp < 720 then Hybrid else Tablet;
      (t, Some(t))
  }

  /** `isPhone`: whether the device class is Phone. */
  function IsPhone(memo: Option<DeviceClass>, d: Display): (r: (bool, Option<DeviceClass>))
    requires memo.Some? || ValidDisplay(d)
    ensures r.1.Some? && (memo.Some? ==> r.1 == memo)
    ensures r.0 <==> r.1 == Some(Phone)
    ensures memo.Some? ==> (r.0 <==> memo.value == Phone)
    ensures memo.None? ==> (r.0 <==> ShortSideDp(d) < 600)
  {
    var (t, m) := GetScreenType(memo, d); (t == Phone, m)
  }

  /** `isHybrid`: whether the device class is Hybrid. */
  function IsHybrid(memo: Option<DeviceClass>, d: Display): (r: (bool, Option<DeviceClass>))
    requires memo.Some? || ValidDisplay(d)
    ensures r.1.Some? && (memo.Some? ==> r.1 == memo)
    ensures r.0 <==> r.1 == Some(Hybrid)
    ensures memo.Some? ==> (r.0 <==> memo.value == Hybrid)
    ensures memo.None? ==> (r.0 <==> 600 <= ShortSideDp(d) < 720)
  {
    var (t, m) := GetScreenType(memo, d); (t == Hybrid, m)
  }

  /** `isTablet`: whether the device class is Tablet. */
  function IsTablet(memo: Option<DeviceClass>, d: Display): (r: (bool, Option<DeviceClass>))
    requires memo.Some? || ValidDisplay(d)
    ensures r.1.Some? && (memo.Some? ==> r.1 == memo)
    ensures r.0 <==> r.1 == Some(Tablet)
    ensures memo.Some? ==> (r.0 <==> memo.value == Tablet)
    ensures memo.None? ==> (r.0 <==> 720 <= ShortSideDp(d))
  {
    var (t, m) := GetScreenType(memo, d); (t == Tablet, m)
  }

  /** Exactly one of the three queries answers true, and all three leave the
      same memo behind. */
  lemma ExactlyOneClass(memo: Option<DeviceClass>, d: Display)
    requires memo.Some? || ValidDisplay(d)
    ensures IsPhone(memo, d).1 == IsHybrid(memo, d).1 == IsTablet(memo, d).1
    ensures (if IsPhone(memo, d).0 then 1 else 0) + (if IsHybrid(memo, d).0 then 1 else 0)
            + (if IsTablet(memo, d).0 then 1 else 0) == 1
  {
  }

  /** Once classified, the device class never changes, whatever display is
      reported later, a zero density included. */
  lemma {:induction false} ClassificationIsSticky(memo: Option<DeviceClass>, ds: seq<Display>)
    requires memo.Some?
    ensures QueryAll(memo, ds) == memo
    decreases |ds|
  {
    if |ds| > 0 {
      ClassificationIsSticky(GetScreenType(memo, ds[0]).1, ds[1..]);
    }
  }

  /** The memo after querying the class once per display in `ds`. */
  function QueryAll(memo: Option<DeviceClass>, ds: seq<Display>): Option<DeviceClass>
    requires memo.Some? || forall i :: 0 <= i < |ds| ==> ValidDisplay(ds[i])
    decreases |ds|
  {
    if |ds| == 0 then memo else QueryAll(GetScreenType(memo, ds[0]).1, ds[1..])
  }

  /** A display whose short side is larger never lands in a smaller class. */
  lemma ClassIsMonotone(d1: Display, d2: Display)
    requires ValidDisplay(d1) && ValidDisplay(d2)
    requires ShortSideDp(d1) <= ShortSideDp(d2)
    ensures Rank(GetScreenType(None, d1).0) <= Rank(GetScreenType(None, d2).0)
  {
  }

  function Rank(t: DeviceClass): nat {
    match t
    case Phone => 0
    case Hybrid => 1
    case Tablet => 2
  }

  /** A 1280x800 display at 160 dpi is a tablet, at 200 dpi a hybrid, and at
      240 dpi a phone. */
  lemma ClassExamples()
    ensures GetScreenType(None, Display(800, 1280, 160)).0 == Tablet
    ensures GetScreenType(None, Display(800, 1280, 240)).0 == Phone
    ensures GetScreenType(None, Display(1280, 800, 200)).0 == Hybrid
  {
  }
}
