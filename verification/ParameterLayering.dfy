/** Overlaying the active controls in priority order to get the parameters of this moment. */
module ParameterLayering {
  import opened Wrappers
  import opened ResourceTypes
  import opened ControlPriority

  /** The attributes of a DefaultDERControl: base attributes and settings. */
  datatype Attributes = Attributes(base: BaseAttributes, settings: SettingAttributes)

  const NO_ATTRIBUTES := Attributes(map[], map[])

  /** Attributes of `first` win over those of `overlay`. */
  function Overlay(first: Attributes, overlay: Attributes): Attributes {
    Attributes(overlay.base + first.base, overlay.settings + first.settings)
  }

  function NumActive(a: Attributes): nat {
    |a.base| + |a.settings|
  }

  predicate IsActive(control: ControlRef, now: Seconds) {
    match control
    case DefaultRef(_) => true
    case ScheduledRef(s) => s.startTime <= now && s.EndTime() > now
  }

  /** A scheduled control has base attributes only. */
  function AttributesOf(control: ControlRef): Attributes {
    match control
    case DefaultRef(default) => Attributes(default.base, default.settings)
    case ScheduledRef(s) => Attributes(s.control.base, map[])
  }

  function ActiveControls(controls: seq<ControlRef>, now: Seconds): seq<ControlRef> {
    if controls == [] then []
    else if IsActive(controls[0], now) then [controls[0]] + ActiveControls(controls[1..], now)
    else ActiveControls(controls[1..], now)
  }

  function FoldOverlay(first: Attributes, controls: seq<ControlRef>): Attributes
    decreases |controls|
  {
    if controls == [] then first else FoldOverlay(Overlay(first, AttributesOf(controls[0])), controls[1..])
  }

  function Layered(controls: seq<ControlRef>, now: Seconds): Attributes {
    FoldOverlay(NO_ATTRIBUTES, ActiveControls(controls, now))
  }

  // Curves.

  predicate IsLeast(ids: set<Mrid>, id: Mrid) {
    id in ids && forall k :: k in ids ==> id <= k
  }

  function LeastOf(ids: set<Mrid>): (id: Mrid)
    requires ids != {}
    ensures IsLeast(ids, id)
  {
    LeastExists(ids);
    var id :| id in ids && IsLeast(ids, id);
    id
  }

  lemma {:induction false} LeastExists(ids: set<Mrid>)
    requires ids != {}
    ensures exists id :: IsLeast(ids, id)
  {
    var x :| x in ids;
    var rest := ids - {x};
    assert forall k :: k in ids ==> k == x || k in rest;
    if rest == {} {
      assert IsLeast(ids, x);
    } else {
      LeastExists(rest);
      var y :| IsLeast(rest, y);
      assert IsLeast(ids, if x <= y then x else y);
    }
  }

  /** A stored curve with this href; of several, the one with the least MRID. */
  function CurveByHref(curves: map<Mrid, CurveResource>, href: Href): Option<CurveResource> {
    var found := set id | id in curves && curves[id].href == Some(href);
    if found == {} then None else Some(curves[LeastOf(found)])
  }

  function CurveHrefs(base: BaseAttributes): set<Href> {
    set k | k in base && base[k].CurveLink? :: base[k].href
  }

  function CurvesFor(base: BaseAttributes, curves: map<Mrid, CurveResource>): map<Href, CurveResource> {
    map h | h in CurveHrefs(base) && CurveByHref(curves, h).Some? :: CurveByHref(curves, h).value
  }

  function CalcParametersForControls(controls: seq<ControlRef>, curves: map<Mrid, CurveResource>,
                                     now: Seconds): ControlAttributes {
    var parameters := Layered(controls, now);
    ControlAttributes(parameters.base, parameters.settings, CurvesFor(parameters.base, curves))
  }

  function CalcParameters(m: ModelState, lfdi: Lfdi, now: Seconds): ControlAttributes {
    CalcParametersForControls(AllControls(m, lfdi, now), m.curves, now)
  }

  // The overlay is a monoid.

  lemma OverlayIsMonoid(a: Attributes, b: Attributes, c: Attributes)
    ensures Overlay(Overlay(a, b), c) == Overlay(a, Overlay(b, c))
    ensures Overlay(a, NO_ATTRIBUTES) == a == Overlay(NO_ATTRIBUTES, a)
    ensures Overlay(a, a) == a
  {
    UnionIsMonoid(a.base, b.base, c.base);
    UnionIsMonoid(a.settings, b.settings, c.settings);
  }

  lemma UnionIsMonoid<K, V>(a: map<K, V>, b: map<K, V>, c: map<K, V>)
    ensures c + (b + a) == (c + b) + a
    ensures map[] + a == a == a + map[]
    ensures a + a == a
  {
  }

  lemma OverlayCounts(a: Attributes, b: Attributes)
    ensures NumActive(a) <= NumActive(Overlay(a, b)) && NumActive(b) <= NumActive(Overlay(a, b))
    ensures NumActive(Overlay(a, b)) <= NumActive(a) + NumActive(b)
  {
    UnionSize(a.base, b.base);
    UnionSize(a.settings, b.settings);
  }

  lemma UnionSize<K, V>(a: map<K, V>, b: map<K, V>)
    ensures |a| <= |b + a| && |b| <= |b + a| <= |a| + |b|
  {
    assert (b + a).Keys == b.Keys + a.Keys;
    KeysSize(a);
    KeysSize(b);
    KeysSize(b + a);
    SubsetSize(a.Keys, b.Keys + a.Keys);
    SubsetSize(b.Keys, b.Keys + a.Keys);
    assert b.Keys + a.Keys == (b.Keys - a.Keys) + a.Keys;
    SubsetSize(b.Keys - a.Keys, b.Keys);
  }

  lemma KeysSize<K, V>(m: map<K, V>)
    ensures |m.Keys| == |m|
  {
  }

  lemma SubsetSize<K>(a: set<K>, b: set<K>)
    requires a <= b
    ensures |a| <= |b|
  {
    assert b == a + (b - a);
  }

  // Priority layering.

  /** A default control always gives its base attributes, a scheduled one from its start until before its end. */
  predicate GivesBase(control: ControlRef, key: string, now: Seconds) {
    match control
    case DefaultRef(default) => key in default.base
    case ScheduledRef(s) => key in s.control.base && s.startTime <= now < s.startTime + s.duration
  }

  function BaseGiven(control: ControlRef, key: string, now: Seconds): AttributeValue
    requires GivesBase(control, key, now)
  {
    match control
    case DefaultRef(default) => default.base[key]
    case ScheduledRef(s) => s.control.base[key]
  }

  function SetsBase(key: string, now: Seconds): Annotated -> bool {
    (a: Annotated) => GivesBase(a.control, key, now)
  }

  /** Only default controls give settings. */
  predicate GivesSetting(control: ControlRef, key: string) {
    control.DefaultRef? && key in control.default.settings
  }

  function SetsSetting(key: string): Annotated -> bool {
    (a: Annotated) => GivesSetting(a.control, key)
  }

  /** The fold keeps, for each attribute, what the first control that sets it says. */
  lemma {:induction false} FoldKeepsFirst(first: Attributes, s: seq<Annotated>, now: Seconds, key: string)
    ensures var r := FoldOverlay(first, ActiveControls(Unannotated(s), now));
            var base, setting := FirstWith(s, SetsBase(key, now)), FirstWith(s, SetsSetting(key));
            && (key in r.base <==> key in first.base || base.Some?)
            && (key in first.base ==> r.base[key] == first.base[key])
            && (key !in first.base && base.Some?
                ==> key in AttributesOf(base.value.control).base
                    && r.base[key] == AttributesOf(base.value.control).base[key])
            && (key in r.settings <==> key in first.settings || setting.Some?)
            && (key in first.settings ==> r.settings[key] == first.settings[key])
            && (key !in first.settings && setting.Some? ==>
                  key in AttributesOf(setting.value.control).settings
                  && r.settings[key] == AttributesOf(setting.value.control).settings[key])
    decreases |s|
  {
    if s != [] {
      var controls := Unannotated(s);
      assert controls[1..] == Unannotated(s[1..]);
      if IsActive(s[0].control, now) {
        FoldKeepsFirst(Overlay(first, AttributesOf(s[0].control)), s[1..], now, key);
        assert ActiveControls(controls, now)[1..] == ActiveControls(controls[1..], now);
      } else {
        FoldKeepsFirst(first, s[1..], now, key);
      }
    }
  }

  /** The value a control gives an attribute wins if nothing else that gives it has priority over the control. */
  ghost predicate BaseDecidedBy(s: seq<Annotated>, now: Seconds, key: string, i: nat, value: AttributeValue) {
    IsForemost(s, SetsBase(key, now), i) && BaseGiven(s[i].control, key, now) == value
  }

  ghost predicate SettingDecidedBy(s: seq<Annotated>, key: string, i: nat, value: int) {
    IsForemost(s, SetsSetting(key), i) && s[i].control.default.settings[key] == value
  }

  /**
   Each base attribute is set exactly when some default control has it, or some scheduled control whose interval
   contains this second; and has the value of the foremost such control by primacy, scheduled before default,
   newest creation, list order.
   */
  lemma BaseAttributeLayering(s: seq<Annotated>, now: Seconds, key: string)
    requires OneDefaultPerPrimacy(s)
    ensures var r := Layered(Unannotated(Sort(s)), now).base;
            && (key in r <==> exists j :: 0 <= j < |s| && GivesBase(s[j].control, key, now))
            && (key in r ==> exists i :: BaseDecidedBy(s, now, key, i, r[key]))
  {
    FoldKeepsFirst(NO_ATTRIBUTES, Sort(s), now, key);
    var r := Layered(Unannotated(Sort(s)), now).base;
    var i := FirstOfSortedIsForemost(s, SetsBase(key, now));
    assert key in r ==> BaseDecidedBy(s, now, key, i, r[key]);
    assert (exists j :: 0 <= j < |s| && SetsBase(key, now)(s[j]))
      <==> (exists j :: 0 <= j < |s| && GivesBase(s[j].control, key, now));
  }

  /** Each setting comes from the foremost default that has it; scheduled controls never mask it. */
  lemma SettingLayering(s: seq<Annotated>, now: Seconds, key: string)
    requires OneDefaultPerPrimacy(s)
    ensures var r := Layered(Unannotated(Sort(s)), now).settings;
            && (key in r <==> exists j :: 0 <= j < |s| && GivesSetting(s[j].control, key))
            && (key in r ==> exists i :: SettingDecidedBy(s, key, i, r[key]))
  {
    FoldKeepsFirst(NO_ATTRIBUTES, Sort(s), now, key);
    var r := Layered(Unannotated(Sort(s)), now).settings;
    var i := FirstOfSortedIsForemost(s, SetsSetting(key));
    assert key in r ==> SettingDecidedBy(s, key, i, r[key]);
    forall j | 0 <= j < |s| ensures SetsSetting(key)(s[j]) <==> GivesSetting(s[j].control, key) {
    }
  }

  /** Layering, for the parameters of a device. */
  lemma ParametersAreLayered(m: ModelState, lfdi: Lfdi, now: Seconds, key: string)
    requires OneDefaultPerPrimacy(Candidates(m, lfdi, now))
    ensures var s, r := Candidates(m, lfdi, now), CalcParameters(m, lfdi, now);
            && (key in r.base <==> exists a :: a in s && GivesBase(a.control, key, now))
            && (key in r.base ==> exists i :: BaseDecidedBy(s, now, key, i, r.base[key]))
            && (key in r.settings <==> exists a :: a in s && GivesSetting(a.control, key))
            && (key in r.settings ==> exists i :: SettingDecidedBy(s, key, i, r.settings[key]))
  {
    BaseAttributeLayering(Candidates(m, lfdi, now), now, key);
    SettingLayering(Candidates(m, lfdi, now), now, key);
  }

  // What one scheduled control contributes, and when.

  lemma {:induction false} ActiveConcat(a: seq<ControlRef>, b: seq<ControlRef>, now: Seconds)
    ensures ActiveControls(a + b, now) == ActiveControls(a, now) + ActiveControls(b, now)
  {
    if a == [] {
      assert a + b == b;
    } else {
      assert (a + b)[1..] == a[1..] + b;
      ActiveConcat(a[1..], b, now);
    }
  }

  lemma {:induction false} FoldConcat(first: Attributes, a: seq<ControlRef>, b: seq<ControlRef>)
    ensures FoldOverlay(first, a + b) == Overlay(FoldOverlay(first, a), FoldOverlay(NO_ATTRIBUTES, b))
    decreases |a| + |b|
  {
    if a != [] {
      assert (a + b)[1..] == a[1..] + b;
      FoldConcat(Overlay(first, AttributesOf(a[0])), a[1..], b);
    } else if b != [] {
      assert a + b == b;
      var head := AttributesOf(b[0]);
      assert [] + b[1..] == b[1..];
      FoldConcat(Overlay(first, head), [], b[1..]);
      FoldConcat(Overlay(NO_ATTRIBUTES, head), [], b[1..]);
      OverlayIsMonoid(head, first, first);
      OverlayIsMonoid(first, head, FoldOverlay(NO_ATTRIBUTES, b[1..]));
    } else {
      assert a + b == [];
      OverlayIsMonoid(first, first, first);
    }
  }

  /**
   A scheduled control adds nothing before its start and from its end on; in between, from the very second of its
   start, it adds its base attributes below those of the controls before it and above those of the controls after it.
   */
  lemma ContributesWithinInterval(before: seq<ControlRef>, s: ScheduledControl, after: seq<ControlRef>, now: Seconds)
    ensures Layered(before + [ScheduledRef(s)] + after, now)
         == if s.startTime <= now < s.startTime + s.duration
            then Overlay(Layered(before, now), Overlay(Attributes(s.control.base, map[]), Layered(after, now)))
            else Layered(before + after, now)
  {
    var c := ScheduledRef(s);
    var a, b := ActiveControls(before, now), ActiveControls(after, now);
    ActiveConcat(before + [c], after, now);
    ActiveConcat(before, [c], now);
    ActiveConcat(before, after, now);
    assert [c][1..] == [] && ActiveControls([], now) == [];
    if s.startTime <= now < s.startTime + s.duration {
      assert ActiveControls([c], now) == [c];
      FoldConcat(NO_ATTRIBUTES, a + [c], b);
      FoldConcat(NO_ATTRIBUTES, a, [c]);
      OverlayIsMonoid(AttributesOf(c), NO_ATTRIBUTES, NO_ATTRIBUTES);
      assert FoldOverlay(NO_ATTRIBUTES, [c]) == AttributesOf(c);
      OverlayIsMonoid(Layered(before, now), AttributesOf(c), Layered(after, now));
    } else {
      assert a + [] + b == a + b;
    }
  }

  // Curves.

  /** Of several stored curves with one href, the one with the least MRID. */
  ghost predicate IsLeastCurve(curves: map<Mrid, CurveResource>, href: Href, id: Mrid) {
    && id in curves && curves[id].href == Some(href)
    && forall k :: k in curves && curves[k].href == Some(href) ==> id <= k
  }

  /** The parameters bring the stored curves that their base attributes link to, under the hrefs of the links. */
  lemma CurvesAreThoseLinked(m: ModelState, lfdi: Lfdi, now: Seconds, h: Href)
    ensures var r := CalcParameters(m, lfdi, now);
            && (h in r.curves <==> && (exists key :: key in r.base && r.base[key] == CurveLink(h))
                                   && (exists id :: id in m.curves && m.curves[id].href == Some(h)))
            && (h in r.curves ==> exists id :: IsLeastCurve(m.curves, h, id) && r.curves[h] == m.curves[id])
  {
    var r := CalcParameters(m, lfdi, now);
    var found := set id | id in m.curves && m.curves[id].href == Some(h);
    assert h in CurveHrefs(r.base) <==> exists key :: key in r.base && r.base[key] == CurveLink(h);
    if id :| id in m.curves && m.curves[id].href == Some(h) {
      assert id in found;
      forall k | k in m.curves && m.curves[k].href == Some(h) ensures LeastOf(found) <= k {
        assert k in found;
      }
      assert IsLeastCurve(m.curves, h, LeastOf(found));
    }
  }
}
