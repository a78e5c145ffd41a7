/** Choosing calibration frames for a light: the flat set that applies, and the ranking of a rule. */
module Calibration {
  import opened Options

  // ---- The tables ----

  /** Nights are day numbers; None is NULL. */
  datatype FlatSet = FlatSet(id: int, rig: int, filter: Option<int>, captured: Option<int>, validFrom: Option<int>,
      validTo: Option<int>)

  datatype Pin = Pin(flatSet: int, rig: int, night: int)

  datatype RigRow = RigRow(id: int, site: Option<int>, active: Option<int>)

  datatype Tables = Tables(sets: seq<FlatSet>, pins: seq<Pin>, rigs: seq<RigRow>)

  datatype Light = Light(rig: Option<int>, filter: Option<int>, night: Option<int>)

  /** Ids are keys, and a rig has at most one pin a night. */
  ghost predicate ValidTables(t: Tables) {
    && (forall i, j :: 0 <= i < j < |t.sets| ==> t.sets[i].id != t.sets[j].id)
    && (forall i, j :: 0 <= i < j < |t.rigs| ==> t.rigs[i].id != t.rigs[j].id)
    && (forall i, j :: 0 <= i < j < |t.pins| ==> t.pins[i].rig != t.pins[j].rig || t.pins[i].night != t.pins[j].night)
  }

  // ---- What a flat set has to be ----

  /** A set fits a light when it spans all filters or has the light's. */
  predicate Fits(l: Light, s: FlatSet) {
    s.filter.None? || (l.filter.Some? && s.filter == l.filter)
  }

  /** Why a set may apply, in the order in which the reasons are tried. */
  datatype Tier = Pinned | InWindow | NewestBefore | Active | SameNight

  function RigOf(t: Tables, id: int): Option<RigRow> {
    RigIn(t.rigs, id)
  }

  function RigIn(rigs: seq<RigRow>, id: int): Option<RigRow> {
    if rigs == [] then None else if rigs[0].id == id then Some(rigs[0]) else RigIn(rigs[1..], id)
  }

  predicate IsPinned(pins: seq<Pin>, s: FlatSet, rig: int, night: int) {
    exists i :: 0 <= i < |pins| && pins[i] == Pin(s.id, rig, night)
  }

  predicate WindowCovers(s: FlatSet, night: int) {
    s.validFrom.Some? && s.validFrom.value <= night && (s.validTo.Some? ==> night <= s.validTo.value)
  }

  /** The set belongs to a tier, for this light. */
  predicate InTier(t: Tables, l: Light, tier: Tier, s: FlatSet) {
    && l.rig.Some? && Fits(l, s)
    && match tier
       case Pinned => l.night.Some? && IsPinned(t.pins, s, l.rig.value, l.night.value)
       case InWindow => l.night.Some? && s.rig == l.rig.value && WindowCovers(s, l.night.value)
       case NewestBefore => l.night.Some? && s.rig == l.rig.value
           && (s.captured.Some? ==> s.captured.value <= l.night.value)
       case Active => RigOf(t, l.rig.value).Some? && RigOf(t, l.rig.value).value.active == Some(s.id)
       case SameNight => l.night.Some? && s.rig == l.rig.value && s.captured == l.night
  }

  /** A pin first; then, at a fixed site, window, newest and active; on the move, the same night. */
  function TiersOf(t: Tables, l: Light): seq<Tier> {
    if l.rig.None? then []
    else
      match RigOf(t, l.rig.value)
      case None => [Pinned]
      case Some(r) => if r.site.Some? then [Pinned, InWindow, NewestBefore, Active] else [Pinned, SameNight]
  }

  /** The best of the sets of a tier: no other of them has a filter where it has none; and of those that are
      alike in that, none has a later night, or a night where it has none, or on its night a larger id. */
  ghost predicate BestOf(t: Tables, l: Light, tier: Tier, s: FlatSet) {
    && s in t.sets && InTier(t, l, tier, s)
    && forall i :: 0 <= i < |t.sets| && InTier(t, l, tier, t.sets[i]) ==> NotBetter(t.sets[i], s)
  }

  predicate NotBetter(other: FlatSet, s: FlatSet) {
    && (other.filter.Some? ==> s.filter.Some?)
    && (other.filter.Some? == s.filter.Some? ==>
          && (other.captured.Some? ==> s.captured.Some? && other.captured.value <= s.captured.value)
          && (other.captured == s.captured ==> other.id <= s.id))
  }

  ghost predicate NoneIn(t: Tables, l: Light, tier: Tier) {
    forall i :: 0 <= i < |t.sets| ==> !InTier(t, l, tier, t.sets[i])
  }

  datatype Pick = Pick(flatSet: FlatSet, tier: Tier)

  // ---- The queries ----

  /** The filter clause of a query. */
  predicate FilterClause(l: Light, s: FlatSet) {
    if l.filter.Some? then s.filter.None? || s.filter.value == l.filter.value else s.filter.None?
  }

  /** The WHERE of each tier's query; a light without a night meets no clause about nights. */
  predicate Queried(t: Tables, l: Light, tier: Tier, s: FlatSet)
    requires l.rig.Some?
  {
    FilterClause(l, s) &&
    match tier
    case Pinned => l.night.Some? && Pin(s.id, l.rig.value, l.night.value) in t.pins
    case InWindow => l.night.Some? && s.rig == l.rig.value
        && ((s.validFrom.Some? && s.validTo.Some? && s.validFrom.value <= l.night.value <= s.validTo.value)
            || (s.validFrom.Some? && s.validTo.None? && l.night.value >= s.validFrom.value))
    case NewestBefore => l.night.Some? && s.rig == l.rig.value
        && (s.captured.None? || s.captured.value <= l.night.value)
    case Active => RigOf(t, l.rig.value).Some? && Some(s.id) == RigOf(t, l.rig.value).value.active
    case SameNight => l.night.Some? && s.rig == l.rig.value && s.captured.Some? && s.captured.value == l.night.value
  }

  lemma QueriedIsTier(t: Tables, l: Light, tier: Tier, s: FlatSet)
    requires l.rig.Some?
    ensures Queried(t, l, tier, s) <==> InTier(t, l, tier, s)
  {
    if l.night.Some? {
      assert IsPinned(t.pins, s, l.rig.value, l.night.value) <==> Pin(s.id, l.rig.value, l.night.value) in t.pins;
    }
    hide RigOf, IsPinned;
  }

  /** ORDER BY (filter_id IS NOT NULL) DESC, captured_night DESC, id DESC: a stands before b. NULL is less than
      any night. */
  predicate Better(a: FlatSet, b: FlatSet) {
    if a.filter.Some? != b.filter.Some? then a.filter.Some?
    else if a.captured != b.captured then b.captured.None? || (a.captured.Some? && a.captured.value > b.captured.value)
    else a.id > b.id
  }

  lemma BetterNot(a: FlatSet, b: FlatSet, c: FlatSet)
    ensures Better(a, b) ==> NotBetter(b, a)
    ensures !Better(a, b) ==> NotBetter(a, b)
    ensures Better(a, b) && NotBetter(c, b) ==> NotBetter(c, a)
  {
  }

  /** SELECT ... ORDER BY ... LIMIT 1 over one tier. */
  method SelectBest(t: Tables, l: Light, tier: Tier) returns (best: Option<FlatSet>)
    requires ValidTables(t) && l.rig.Some?
    ensures best.None? ==> NoneIn(t, l, tier)
    ensures best.Some? ==> BestOf(t, l, tier, best.value)
  {
    hide InTier, Queried, Better, NotBetter;
    best := None;
    var i := 0;
    while i < |t.sets|
      invariant 0 <= i <= |t.sets|
      invariant best.None? ==> forall j :: 0 <= j < i ==> !InTier(t, l, tier, t.sets[j])
      invariant best.Some? ==> best.value in t.sets[..i] && InTier(t, l, tier, best.value)
      invariant best.Some? ==> forall j :: 0 <= j < i && InTier(t, l, tier, t.sets[j]) ==>
          NotBetter(t.sets[j], best.value)
    {
      var s := t.sets[i];
      QueriedIsTier(t, l, tier, s);
      SelfNotBetter(s);
      if Queried(t, l, tier, s) {
        ghost var was := best;
        if best.None? || Better(s, best.value) {
          best := Some(s);
        }
        if was.Some? {
          forall j | 0 <= j < i && InTier(t, l, tier, t.sets[j])
            ensures NotBetter(t.sets[j], best.value)
          {
            BetterNot(s, was.value, t.sets[j]);
          }
          BetterNot(s, was.value, s);
        }
      }
      i := i + 1;
    }
  }

  lemma SelfNotBetter(s: FlatSet)
    ensures NotBetter(s, s)
  {
  }

  /** The best set of the first tier that has one; none where no tier has. */
  ghost predicate IsPick(t: Tables, l: Light, pick: Option<Pick>) {
    match pick
    case None => forall k :: 0 <= k < |TiersOf(t, l)| ==> NoneIn(t, l, TiersOf(t, l)[k])
    case Some(p) =>
      exists k :: 0 <= k < |TiersOf(t, l)| && TiersOf(t, l)[k] == p.tier && BestOf(t, l, p.tier, p.flatSet)
                  && forall j :: 0 <= j < k ==> NoneIn(t, l, TiersOf(t, l)[j])
  }

  /** A set of the rig, for the light's filter or for all. */
  predicate OfRig(l: Light, s: FlatSet) {
    l.rig.Some? && s.rig == l.rig.value && (s.filter.None? || (l.filter.Some? && s.filter.value == l.filter.value))
  }

  /** Captured on or before the light's night, or without a date; and no other such set of the rig with the
      same filter is newer, or as new with a larger id. */
  ghost predicate NewestRight(t: Tables, l: Light, s: FlatSet) {
    && s in t.sets && OfRig(l, s) && l.night.Some? && (s.captured.Some? ==> s.captured.value <= l.night.value)
    && forall other :: other in t.sets && OfRig(l, other) && other.filter == s.filter ==>
         && (other.captured.Some? && other.captured.value <= l.night.value ==>
               s.captured.Some? && other.captured.value <= s.captured.value)
         && (other.captured == s.captured ==> other.id <= s.id)
  }

  predicate Covers(s: FlatSet, night: int) {
    s.validFrom.Some? && s.validFrom.value <= night && (s.validTo.None? || night <= s.validTo.value)
  }

  /** Its window covers the light's night; and no other such set of the rig with the same filter is newer, or
      as new with a larger id. */
  ghost predicate WindowRight(t: Tables, l: Light, s: FlatSet) {
    && s in t.sets && OfRig(l, s) && l.night.Some? && Covers(s, l.night.value)
    && forall other ::
         other in t.sets && OfRig(l, other) && other.filter == s.filter && Covers(other, l.night.value) ==>
         && (other.captured.Some? ==> s.captured.Some? && other.captured.value <= s.captured.value)
         && (other.captured == s.captured ==> other.id <= s.id)
  }

  /** Captured on the light's night; and no other such set of the rig with the same filter has a larger id. */
  ghost predicate NightRight(t: Tables, l: Light, s: FlatSet) {
    && s in t.sets && OfRig(l, s) && l.night.Some? && s.captured == l.night
    && forall other :: other in t.sets && OfRig(l, other) && other.filter == s.filter && other.captured == l.night ==>
         other.id <= s.id
  }

  lemma RightPicks(t: Tables, l: Light, pick: Option<Pick>)
    requires IsPick(t, l, pick) && pick.Some?
    ensures pick.value.tier.NewestBefore? ==> NewestRight(t, l, pick.value.flatSet)
    ensures pick.value.tier.InWindow? ==> WindowRight(t, l, pick.value.flatSet)
    ensures pick.value.tier.SameNight? ==> NightRight(t, l, pick.value.flatSet)
  {
    hide NoneIn, TiersOf, RigOf, IsPinned;
    BestRight(t, l, pick.value.tier, pick.value.flatSet);
  }

  lemma BestRight(t: Tables, l: Light, tier: Tier, s: FlatSet)
    requires BestOf(t, l, tier, s)
    ensures tier.NewestBefore? ==> NewestRight(t, l, s)
    ensures tier.InWindow? ==> WindowRight(t, l, s)
    ensures tier.SameNight? ==> NightRight(t, l, s)
  {
    hide RigOf, IsPinned;
    forall i | 0 <= i < |t.sets| && InTier(t, l, tier, t.sets[i])
      ensures NotBetter(t.sets[i], s)
    {
    }
  }

  /** resolve_flat_set: the best set of the first tier that has one, and none only if no tier has. */
  method ResolveFlatSet(t: Tables, l: Light) returns (pick: Option<Pick>)
    requires ValidTables(t)
    ensures IsPick(t, l, pick)
    ensures pick.Some? && pick.value.tier.NewestBefore? ==> NewestRight(t, l, pick.value.flatSet)
    ensures pick.Some? && pick.value.tier.InWindow? ==> WindowRight(t, l, pick.value.flatSet)
    ensures pick.Some? && pick.value.tier.SameNight? ==> NightRight(t, l, pick.value.flatSet)
  {
    pick := FirstPick(t, l);
    if pick.Some? {
      RightPicks(t, l, pick);
    }
  }

  method FirstPick(t: Tables, l: Light) returns (pick: Option<Pick>)
    requires ValidTables(t)
    ensures IsPick(t, l, pick)
  {
    if l.rig.None? {
      return None;
    }
    var tiers := TiersOf(t, l);
    var pinned := SelectBest(t, l, Pinned);
    assert tiers[0] == Pinned;
    if pinned.Some? {
      return Some(Pick(pinned.value, Pinned));
    }
    var rig := RigOf(t, l.rig.value);
    if rig.None? {
      return None;
    }
    hide InTier, BestOf;
    if rig.value.site.Some? {
      var window := SelectBest(t, l, InWindow);
      assert tiers[1] == InWindow;
      if window.Some? {
        return Some(Pick(window.value, InWindow));
      }
      var newest := SelectBest(t, l, NewestBefore);
      assert tiers[2] == NewestBefore;
      if newest.Some? {
        return Some(Pick(newest.value, NewestBefore));
      }
      var active := SelectBest(t, l, Active);
      assert tiers[3] == Active;
      if active.Some? {
        return Some(Pick(active.value, Active));
      }
      return None;
    }
    var night := SelectBest(t, l, SameNight);
    assert tiers[1] == SameNight;
    if night.Some? {
      return Some(Pick(night.value, SameNight));
    }
    pick := None;
  }

  // ---- The choice does not depend on the order of the rows ----

  /** The same rows, in whatever order. */
  ghost predicate SameRows(t: Tables, u: Tables) {
    && (forall s :: s in t.sets <==> s in u.sets)
    && (forall p :: p in t.pins <==> p in u.pins)
    && (forall r :: r in t.rigs <==> r in u.rigs)
  }

  lemma {:induction false} RigFound(rigs: seq<RigRow>, id: int)
    ensures match RigIn(rigs, id)
            case Some(r) => r in rigs && r.id == id
            case None => forall r :: r in rigs ==> r.id != id
  {
    if rigs != [] && rigs[0].id != id {
      RigFound(rigs[1..], id);
    }
  }

  lemma SameRig(t: Tables, u: Tables, id: int)
    requires ValidTables(t) && SameRows(t, u)
    ensures RigOf(t, id) == RigOf(u, id)
  {
    RigFound(t.rigs, id);
    RigFound(u.rigs, id);
    if RigOf(t, id).Some? && RigOf(u, id).Some? {
      var a, b := RigOf(t, id).value, RigOf(u, id).value;
      assert b in t.rigs;
      var i :| 0 <= i < |t.rigs| && t.rigs[i] == a;
      var j :| 0 <= j < |t.rigs| && t.rigs[j] == b;
    }
  }

  lemma SameTier(t: Tables, u: Tables, l: Light, tier: Tier, s: FlatSet)
    requires ValidTables(t) && SameRows(t, u)
    ensures InTier(t, l, tier, s) == InTier(u, l, tier, s)
  {
    if l.rig.Some? {
      SameRig(t, u, l.rig.value);
      if l.night.Some? {
        assert IsPinned(t.pins, s, l.rig.value, l.night.value) <==> Pin(s.id, l.rig.value, l.night.value) in t.pins;
        assert IsPinned(u.pins, s, l.rig.value, l.night.value) <==> Pin(s.id, l.rig.value, l.night.value) in u.pins;
      }
    }
    hide IsPinned, RigOf, Fits, WindowCovers;
  }

  /** There is one best set of a tier. */
  lemma BestIsUnique(t: Tables, u: Tables, l: Light, tier: Tier, a: FlatSet, b: FlatSet)
    requires ValidTables(t) && SameRows(t, u) && BestOf(t, l, tier, a) && BestOf(u, l, tier, b)
    ensures a == b
  {
    SameTier(t, u, l, tier, a);
    SameTier(t, u, l, tier, b);
    hide InTier;
    var i :| 0 <= i < |t.sets| && t.sets[i] == a;
    assert b in t.sets && a in u.sets;
    var j :| 0 <= j < |t.sets| && t.sets[j] == b;
    var k :| 0 <= k < |u.sets| && u.sets[k] == a;
  }

  lemma SameNone(t: Tables, u: Tables, l: Light, tier: Tier, s: FlatSet)
    requires ValidTables(t) && SameRows(t, u) && NoneIn(t, l, tier)
    ensures NoneIn(u, l, tier) && !BestOf(u, l, tier, s)
  {
    forall i | 0 <= i < |u.sets|
      ensures !InTier(u, l, tier, u.sets[i])
    {
      SameTier(t, u, l, tier, u.sets[i]);
      assert u.sets[i] in t.sets;
      var j :| 0 <= j < |t.sets| && t.sets[j] == u.sets[i];
    }
    hide InTier;
  }

  lemma SameTiers(t: Tables, u: Tables, l: Light)
    requires ValidTables(t) && SameRows(t, u)
    ensures TiersOf(t, l) == TiersOf(u, l)
  {
    if l.rig.Some? {
      SameRig(t, u, l.rig.value);
    }
  }

  /** Whatever order the server keeps its rows in, the same set is chosen, for the same reason. */
  lemma PickIsUnique(t: Tables, u: Tables, l: Light, a: Option<Pick>, b: Option<Pick>)
    requires ValidTables(t) && ValidTables(u) && SameRows(t, u) && IsPick(t, l, a) && IsPick(u, l, b)
    ensures a == b
  {
    SameTiers(t, u, l);
    hide TiersOf, BestOf, NoneIn, ValidTables, SameRows;
    if a.Some? {
      EarlierPick(t, u, l, a.value, b);
    }
    if b.Some? {
      assert SameRows(u, t) by { SameBack(t, u); }
      EarlierPick(u, t, l, b.value, a);
    }
  }

  lemma SameBack(t: Tables, u: Tables)
    requires SameRows(t, u)
    ensures SameRows(u, t)
  {
  }

  /** A pick of the one is that of the other. */
  lemma EarlierPick(t: Tables, u: Tables, l: Light, a: Pick, b: Option<Pick>)
    requires ValidTables(t) && ValidTables(u) && SameRows(t, u) && TiersOf(t, l) == TiersOf(u, l)
    requires IsPick(t, l, Some(a)) && IsPick(u, l, b)
    ensures b == Some(a)
  {
    var tiers := TiersOf(t, l);
    SameBack(t, u);
    hide TiersOf, BestOf, NoneIn, ValidTables, SameRows;
    var k :| 0 <= k < |tiers| && tiers[k] == a.tier && BestOf(t, l, a.tier, a.flatSet)
        && forall j :: 0 <= j < k ==> NoneIn(t, l, tiers[j]);
    if b.None? {
      SameNone(u, t, l, tiers[k], a.flatSet);
      assert false;
    }
    var m :| 0 <= m < |tiers| && tiers[m] == b.value.tier && BestOf(u, l, b.value.tier, b.value.flatSet)
        && forall j :: 0 <= j < m ==> NoneIn(u, l, tiers[j]);
    if m < k {
      SameNone(t, u, l, tiers[m], b.value.flatSet);
      assert false;
    }
    if k < m {
      SameNone(u, t, l, tiers[k], a.flatSet);
      assert false;
    }
    BestIsUnique(t, u, l, a.tier, a.flatSet, b.value.flatSet);
  }

  /** The flats of the chosen set suit the light's filter; and it only spans all filters where no set of its
      tier has the light's own. */
  lemma PickFits(t: Tables, l: Light, pick: Option<Pick>)
    requires IsPick(t, l, pick) && pick.Some?
    ensures var s := pick.value.flatSet;
            && (s.filter.None? || s.filter == l.filter)
            && (l.filter.Some? && s.filter.None? ==>
                  forall i :: 0 <= i < |t.sets| && InTier(t, l, pick.value.tier, t.sets[i]) ==> t.sets[i].filter.None?)
  {
    hide TiersOf, NoneIn;
  }

  // ---- Matching ----

  datatype FieldValue = Number(x: real) | Text(s: string)

  /** exact, exact or missing, or within a tolerance. */
  datatype FieldSpec = Exact | ExactNullOk | Tolerance(tol: real)

  datatype Frame = Frame(
    id: int,
    imageType: string,
    masterOf: Option<string>,
    fields: map<string, FieldValue>,
    night: Option<int>,
    date: Option<int>)

  datatype Rule = Rule(
    target: string,
    spec: seq<(string, FieldSpec)>,
    maxAgeDays: Option<nat>,
    preferMasters: bool,
    preferSession: bool)

  datatype LightKey = LightKey(fields: map<string, FieldValue>, night: Option<int>, date: Option<int>)

  const MATCH_FIELDS := {
    "camera_id", "rig_id", "filter_id", "gain", "offset_adu", "binx", "biny", "set_temp_c", "exposure_s", "rotator_deg",
    "readout_mode"}

  function ValueOf(m: map<string, FieldValue>, field: string): Option<FieldValue> {
    if field in m then Some(m[field]) else None
  }

  function Distance(a: real, b: real): real {
    if a < b then b - a else a - b
  }

  predicate Near(a: FieldValue, b: FieldValue, tol: real) {
    a.Number? && b.Number? && Distance(a.x, b.x) <= tol
  }

  /** What one entry of a rule asks; fields a rule may not name are ignored. */
  predicate FieldMatches(l: LightKey, f: Frame, field: string, spec: FieldSpec) {
    field in MATCH_FIELDS ==>
      var mine, theirs := ValueOf(l.fields, field), ValueOf(f.fields, field);
      if mine.None? then spec.Exact? ==> theirs.None?
      else
        match spec
        case Exact => theirs == mine
        case ExactNullOk => theirs.None? || theirs == mine
        case Tolerance(tol) => theirs.Some? && Near(theirs.value, mine.value, tol)
  }

  const SECONDS_PER_DAY := 86400

  function Gap(a: int, b: int): nat {
    if a < b then b - a else a - b
  }

  /** Raw frames of the type, or masters of it, that meet every entry and are not too old. */
  ghost predicate Matches(r: Rule, l: LightKey, f: Frame) {
    && (f.imageType == r.target || (f.imageType == "master" && f.masterOf == Some(r.target)))
    && (forall k :: 0 <= k < |r.spec| ==> FieldMatches(l, f, r.spec[k].0, r.spec[k].1))
    && (r.maxAgeDays.Some? && l.date.Some? && f.date.Some?
        ==> Gap(f.date.value, l.date.value) / SECONDS_PER_DAY <= r.maxAgeDays.value)
  }

  /** The clause one entry of a rule adds. */
  method EntryMatches(l: LightKey, f: Frame, field: string, spec: FieldSpec) returns (ok: bool)
    ensures ok == FieldMatches(l, f, field, spec)
  {
    if field !in MATCH_FIELDS {
      return true;
    }
    if field !in l.fields {
      return !spec.Exact? || field !in f.fields;
    }
    var mine := l.fields[field];
    match spec {
      case Exact => ok := field in f.fields && f.fields[field] == mine;
      case ExactNullOk => ok := field !in f.fields || f.fields[field] == mine;
      case Tolerance(tol) =>
        ok := field in f.fields && f.fields[field].Number? && mine.Number?
            && -tol <= f.fields[field].x - mine.x <= tol;
    }
  }

  /** The predicate of a rule, built entry by entry. */
  method MatchesRule(r: Rule, l: LightKey, f: Frame) returns (ok: bool)
    ensures ok == Matches(r, l, f)
  {
    hide FieldMatches;
    ok := f.imageType == r.target || (f.imageType == "master" && f.masterOf == Some(r.target));
    var k := 0;
    while k < |r.spec|
      invariant 0 <= k <= |r.spec|
      invariant ok <==> (f.imageType == r.target || (f.imageType == "master" && f.masterOf == Some(r.target)))
                        && forall j :: 0 <= j < k ==> FieldMatches(l, f, r.spec[j].0, r.spec[j].1)
    {
      var entry := EntryMatches(l, f, r.spec[k].0, r.spec[k].1);
      ok := ok && entry;
      k := k + 1;
    }
    if r.maxAgeDays.Some? && l.date.Some? && f.date.Some? {
      var apart := f.date.value - l.date.value;
      ok := ok && (if apart < 0 then -apart else apart) / 86400 <= r.maxAgeDays.value;
    }
  }

  // ---- Ranking ----

  /** The keys of ORDER BY, smaller first. Descending flags: true, false, then NULL. Ascending times:
      NULL comes first. */
  function MasterKey(r: Rule, f: Frame): nat {
    if r.preferMasters && f.imageType != "master" then 1 else 0
  }

  function SessionKey(r: Rule, l: LightKey, f: Frame): nat {
    if !r.preferSession || l.night.None? then 0 else if f.night.None? then 2 else if f.night == l.night then 0 else 1
  }

  function TimeKey(l: LightKey, f: Frame): nat {
    if l.date.None? || f.date.None? then 0 else 1 + Gap(f.date.value, l.date.value)
  }

  /** The total order of the candidates of a rule. */
  predicate Precedes(r: Rule, l: LightKey, a: Frame, b: Frame) {
    if MasterKey(r, a) != MasterKey(r, b) then MasterKey(r, a) < MasterKey(r, b)
    else if SessionKey(r, l, a) != SessionKey(r, l, b) then SessionKey(r, l, a) < SessionKey(r, l, b)
    else if TimeKey(l, a) != TimeKey(l, b) then TimeKey(l, a) < TimeKey(l, b)
    else a.id < b.id
  }

  ghost predicate DistinctIds(fs: seq<Frame>) {
    forall i, j :: 0 <= i < j < |fs| ==> fs[i].id != fs[j].id
  }

  ghost predicate Ranked(r: Rule, l: LightKey, fs: seq<Frame>) {
    forall i, j :: 0 <= i < j < |fs| ==> Precedes(r, l, fs[i], fs[j])
  }

  function Inserted(r: Rule, l: LightKey, fs: seq<Frame>, f: Frame): seq<Frame> {
    if fs == [] then [f]
    else if Precedes(r, l, f, fs[0]) then [f] + fs
    else [fs[0]] + Inserted(r, l, fs[1..], f)
  }

  /** ORDER BY */
  function Ordered(r: Rule, l: LightKey, fs: seq<Frame>): seq<Frame> {
    if fs == [] then [] else Inserted(r, l, Ordered(r, l, fs[1..]), fs[0])
  }

  lemma {:induction false} InsertedSame(r: Rule, l: LightKey, fs: seq<Frame>, f: Frame)
    ensures multiset(Inserted(r, l, fs, f)) == multiset(fs) + multiset{f}
  {
    hide Precedes;
    if fs != [] {
      assert fs == [fs[0]] + fs[1..];
      InsertedSame(r, l, fs[1..], f);
    }
  }

  lemma {:induction false} InsertedRanked(r: Rule, l: LightKey, fs: seq<Frame>, f: Frame)
    requires Ranked(r, l, fs) && forall i :: 0 <= i < |fs| ==> fs[i].id != f.id
    ensures Ranked(r, l, Inserted(r, l, fs, f))
  {
    if fs != [] {
      if Precedes(r, l, f, fs[0]) {
        var out := [f] + fs;
        forall i, j | 0 <= i < j < |out|
          ensures Precedes(r, l, out[i], out[j])
        {
          if i == 0 && j > 1 {
            PrecedesTransitive(r, l, f, fs[0], fs[j - 1]);
          }
        }
      } else {
        var rest := Inserted(r, l, fs[1..], f);
        assert forall i, j :: 0 <= i < j < |fs| - 1 ==> fs[1..][i] == fs[i + 1] && fs[1..][j] == fs[j + 1];
        InsertedRanked(r, l, fs[1..], f);
        InsertedSame(r, l, fs[1..], f);
        forall j | 0 <= j < |rest|
          ensures Precedes(r, l, fs[0], rest[j])
        {
          assert rest[j] in multiset(rest);
          if rest[j] != f {
            assert rest[j] in fs[1..];
            var k :| 0 <= k < |fs| - 1 && fs[1..][k] == rest[j];
            assert fs[k + 1] == rest[j];
          } else {
            OneWay(r, l, f, fs[0]);
          }
        }
      }
    }
  }

  lemma PrecedesTransitive(r: Rule, l: LightKey, a: Frame, b: Frame, c: Frame)
    requires Precedes(r, l, a, b) && Precedes(r, l, b, c)
    ensures Precedes(r, l, a, c)
  {
  }

  lemma OneWay(r: Rule, l: LightKey, a: Frame, b: Frame)
    requires a.id != b.id
    ensures Precedes(r, l, a, b) <==> !Precedes(r, l, b, a)
  {
  }

  lemma {:induction false} OrderedIs(r: Rule, l: LightKey, fs: seq<Frame>)
    requires DistinctIds(fs)
    ensures multiset(Ordered(r, l, fs)) == multiset(fs) && Ranked(r, l, Ordered(r, l, fs))
  {
    hide Precedes;
    if fs != [] {
      assert fs == [fs[0]] + fs[1..];
      OrderedIs(r, l, fs[1..]);
      var rest := Ordered(r, l, fs[1..]);
      forall i | 0 <= i < |rest|
        ensures rest[i].id != fs[0].id
      {
        assert rest[i] in multiset(rest);
        assert rest[i] in fs[1..];
        var k :| 0 <= k < |fs| - 1 && fs[1..][k] == rest[i];
        assert fs[k + 1] == rest[i];
      }
      InsertedSame(r, l, rest, fs[0]);
      InsertedRanked(r, l, rest, fs[0]);
    }
  }

  // ---- Candidates ----

  datatype Candidate = Candidate(frame: Frame, score: real)

  function Score(rank: nat, limit: nat): real {
    1.0 - rank as real / (limit + 1) as real
  }

  function Top(fs: seq<Frame>, limit: nat): seq<Frame> {
    if |fs| <= limit then fs else fs[..limit]
  }

  function Scored(fs: seq<Frame>, limit: nat): seq<Candidate> {
    seq(|fs|, i requires 0 <= i < |fs| => Candidate(fs[i], Score(i, limit)))
  }

  /** The candidates of a rule: the first of its matching frames, ranked and scored. */
  ghost function CandidatesOf(frames: seq<Frame>, r: Rule, l: LightKey, limit: nat): seq<Candidate> {
    Scored(Top(Ordered(r, l, Matching(r, l, frames)), limit), limit)
  }

  ghost function Matching(r: Rule, l: LightKey, fs: seq<Frame>): seq<Frame> {
    if fs == [] then [] else (if Matches(r, l, fs[0]) then [fs[0]] else []) + Matching(r, l, fs[1..])
  }

  /** The WHERE of a rule's query. */
  method SelectMatching(frames: seq<Frame>, r: Rule, l: LightKey) returns (matching: seq<Frame>)
    ensures matching == Matching(r, l, frames)
  {
    hide Matches;
    matching := [];
    var i := 0;
    assert frames[0..] == frames;
    while i < |frames|
      invariant 0 <= i <= |frames|
      invariant Matching(r, l, frames) == matching + Matching(r, l, frames[i..])
    {
      var ok := MatchesRule(r, l, frames[i]);
      assert frames[i..][1..] == frames[i + 1..];
      if ok {
        assert matching + ([frames[i]] + Matching(r, l, frames[i + 1..]))
            == matching + [frames[i]] + Matching(r, l, frames[i + 1..]);
        matching := matching + [frames[i]];
      } else {
        assert [] + Matching(r, l, frames[i + 1..]) == Matching(r, l, frames[i + 1..]);
      }
      i := i + 1;
    }
    assert frames[i..] == [] && matching + [] == matching;
  }

  /** The loop over the rows: each gets the score of its rank. */
  method ScoreRows(rows: seq<Frame>, limit: nat) returns (candidates: seq<Candidate>)
    ensures candidates == Scored(rows, limit)
  {
    candidates := [];
    var rank := 0;
    while rank < |rows|
      invariant 0 <= rank <= |rows|
      invariant candidates == Scored(rows[..rank], limit)
    {
      candidates := candidates + [Candidate(rows[rank], 1.0 - rank as real / (limit + 1) as real)];
      rank := rank + 1;
    }
    assert rows[..rank] == rows;
  }

  /** The heuristic part of match_calibration, for one rule. */
  method MatchCalibration(frames: seq<Frame>, r: Rule, l: LightKey, limit: nat)
      returns (total: nat, candidates: seq<Candidate>)
    ensures total == |Matching(r, l, frames)|
    ensures candidates == CandidatesOf(frames, r, l, limit)
  {
    var matching := SelectMatching(frames, r, l);
    total := |matching|;
    candidates := ScoreRows(Top(Ordered(r, l, matching), limit), limit);
  }

  lemma {:induction false} MatchingIs(r: Rule, l: LightKey, fs: seq<Frame>)
    requires DistinctIds(fs)
    ensures DistinctIds(Matching(r, l, fs))
    ensures forall f :: f in Matching(r, l, fs) <==> f in fs && Matches(r, l, f)
  {
    hide Matches;
    if fs != [] {
      MatchingIs(r, l, fs[1..]);
      assert fs == [fs[0]] + fs[1..];
      assert forall i, j :: 0 <= i < j < |fs| - 1 ==> fs[1..][i] == fs[i + 1] && fs[1..][j] == fs[j + 1];
      var rest := Matching(r, l, fs[1..]);
      forall i | 0 <= i < |rest|
        ensures rest[i].id != fs[0].id
      {
        assert rest[i] in fs[1..];
        var k :| 0 <= k < |fs| - 1 && fs[1..][k] == rest[i];
        assert fs[k + 1] == rest[i];
      }
    }
  }

  /** The candidates of a rule are matching frames; every matching frame left out ranks after each of
      them; and there are as many as the limit and the matches allow. */
  lemma CandidatesAreBest(frames: seq<Frame>, r: Rule, l: LightKey, limit: nat, f: Frame, i: nat)
    requires DistinctIds(frames)
    requires f in frames && Matches(r, l, f) && i < |CandidatesOf(frames, r, l, limit)|
    ensures var best := CandidatesOf(frames, r, l, limit);
            && |best| == (if |Matching(r, l, frames)| <= limit then |Matching(r, l, frames)| else limit)
            && best[i].frame in frames && Matches(r, l, best[i].frame)
            && ((exists k :: 0 <= k < |best| && best[k].frame == f) || Precedes(r, l, best[i].frame, f))
  {
    MatchingIs(r, l, frames);
    var matching := Matching(r, l, frames);
    OrderedIs(r, l, matching);
    hide Matches, Precedes, Ordered, Matching;
    var ordered := Ordered(r, l, matching);
    assert |ordered| == |multiset(ordered)| == |multiset(matching)| == |matching|;
    assert f in multiset(ordered) && ordered[i] in multiset(ordered);
    assert ordered[i] in matching;
    var k :| 0 <= k < |ordered| && ordered[k] == f;
    var best := CandidatesOf(frames, r, l, limit);
    assert best[i].frame == ordered[i];
    if k < |best| {
      assert best[k].frame == f;
    }
  }

  /** The candidates for a larger limit begin with the frames of those for a smaller one, in the same
      order, and none of them scores less. */
  lemma LimitsAgree(frames: seq<Frame>, r: Rule, l: LightKey, small: nat, large: nat, i: nat)
    requires small <= large && i < |CandidatesOf(frames, r, l, small)|
    ensures var few, many := CandidatesOf(frames, r, l, small), CandidatesOf(frames, r, l, large);
            i < |many| && many[i].frame == few[i].frame && many[i].score >= few[i].score
  {
    hide Ordered, Matching, Score;
    ScoreGrows(i, small, large);
  }

  lemma ScoreGrows(i: nat, small: nat, large: nat)
    requires small <= large
    ensures Score(i, large) >= Score(i, small)
  {
    var x, m, n := i as real, (small + 1) as real, (large + 1) as real;
    assert m <= n;
    Flatter(x, m, n);
  }

  lemma Flatter(x: real, m: real, n: real)
    requires x >= 0.0 && 0.0 < m <= n
    ensures x / n <= x / m
  {
    var q := x / m;
    assert q >= 0.0 && q * m == x;
    assert q * n >= q * m by {
      assert q * (n - m) >= 0.0;
    }
    assert x / n * n == x;
    Larger(q, x / n, n);
  }

  lemma Larger(x: real, y: real, n: real)
    requires n > 0.0
    ensures x < y ==> x * n < y * n
  {
    if x < y {
      assert (y - x) * n > 0.0;
    }
  }

  /** Scores fall strictly with the rank and stay above 0 and at most 1. */
  lemma ScoresFall(i: nat, j: nat, limit: nat)
    requires i < j < limit
    ensures 0.0 < Score(j, limit) < Score(i, limit) <= 1.0
  {
    var n := (limit + 1) as real;
    assert i as real / n < j as real / n < 1.0 by {
      Smaller(i as real, j as real, n);
      Smaller(j as real, n, n);
    }
    assert 0.0 <= i as real / n;
  }

  /** So the scores of the candidates fall strictly in their order. */
  lemma CandidatesFall(frames: seq<Frame>, r: Rule, l: LightKey, limit: nat, i: nat, j: nat)
    requires i < j < |CandidatesOf(frames, r, l, limit)|
    ensures var best := CandidatesOf(frames, r, l, limit); 0.0 < best[j].score < best[i].score <= 1.0
  {
    hide Ordered, Matching, Score;
    ScoresFall(i, j, limit);
  }

  lemma Smaller(a: real, b: real, n: real)
    requires a < b && n > 0.0
    ensures a / n < b / n
  {
    var x, y := a / n, b / n;
    assert x * n == a && y * n == b;
    Monotone(x, y, n);
  }

  lemma Monotone(x: real, y: real, n: real)
    requires n > 0.0
    ensures x >= y ==> x * n >= y * n
  {
    if x >= y {
      assert (x - y) * n >= 0.0;
    }
  }

  /** In the ranking, a rule that prefers masters has no other frame before a master; and among frames
      alike in that, one that prefers the session has the light's own night before other nights and these
      before frames without a night. */
  lemma PreferencesRank(frames: seq<Frame>, r: Rule, l: LightKey, i: nat, j: nat)
    requires DistinctIds(frames) && i < j < |Ordered(r, l, Matching(r, l, frames))|
    ensures var rows := Ordered(r, l, Matching(r, l, frames));
            && (r.preferMasters && rows[j].imageType == "master" ==> rows[i].imageType == "master")
            && (r.preferSession && l.night.Some? && SameStanding(r, rows[i], rows[j]) ==>
                  && (rows[j].night == l.night ==> rows[i].night == l.night)
                  && (rows[i].night.None? ==> rows[j].night.None?))
  {
    MatchingIs(r, l, frames);
    OrderedIs(r, l, Matching(r, l, frames));
    hide Ordered, Matching;
    assert Precedes(r, l, Ordered(r, l, Matching(r, l, frames))[i], Ordered(r, l, Matching(r, l, frames))[j]);
  }

  /** Alike in what the rule prefers of masters. */
  predicate SameStanding(r: Rule, a: Frame, b: Frame) {
    r.preferMasters ==> (a.imageType == "master" <==> b.imageType == "master")
  }

  /** Alike in the session, too. */
  predicate SameClass(r: Rule, l: LightKey, a: Frame, b: Frame) {
    && SameStanding(r, a, b)
    && (r.preferSession && l.night.Some? ==>
          (a.night.None? <==> b.night.None?) && (a.night == l.night <==> b.night == l.night))
  }

  function Abs(n: int): int {
    if n < 0 then -n else n
  }

  /** In the ranking, of two frames alike in all that, the nearer to a dated light in time stands first, and the
      id decides ties, and where the light has no date; but for a dated light a frame without a date stands
      before every dated one: NULL sorts first. */
  lemma NearestFirst(frames: seq<Frame>, r: Rule, l: LightKey, i: nat, j: nat)
    requires DistinctIds(frames) && i < |Ordered(r, l, Matching(r, l, frames))|
        && j < |Ordered(r, l, Matching(r, l, frames))|
    requires var rows := Ordered(r, l, Matching(r, l, frames)); SameClass(r, l, rows[i], rows[j])
    requires i != j
    ensures var a, b := Ordered(r, l, Matching(r, l, frames))[i], Ordered(r, l, Matching(r, l, frames))[j];
            i < j <==> if l.date.None? || (a.date.None? && b.date.None?) then a.id < b.id
                       else if a.date.None? || b.date.None? then a.date.None?
                       else var x, y := Abs(a.date.value - l.date.value), Abs(b.date.value - l.date.value);
                            x < y || (x == y && a.id < b.id)
  {
    MatchingIs(r, l, frames);
    OrderedIs(r, l, Matching(r, l, frames));
    hide Ordered, Matching;
    var rows := Ordered(r, l, Matching(r, l, frames));
    if i < j {
      assert Precedes(r, l, rows[i], rows[j]);
    } else {
      assert Precedes(r, l, rows[j], rows[i]);
    }
  }
}
