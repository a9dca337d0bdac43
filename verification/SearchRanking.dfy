/** The catalog's order: grouping by collection in `frontend/src/browse/BrowsePage.tsx`, and the
    search ranking of `frontend/src/collection/baseSearchRanking.ts` and
    `frontend/src/browse/browseSearchRanking.ts`. */
module SearchRanking {
  import opened OrderedMap
  import opened StableSort
  import opened Wrappers

  datatype Model = Model(objectId: Key, collectionId: Key, createdAtMs: int)

  datatype Distance = NotFinite | Finite(d: real)

  datatype Chip = Chip(prompt: string, modelId: Option<Key>, distance: Distance)

  type Transform = Distance -> Distance

  datatype Options = Options(personal: Transform, global: Transform, strongAt: real)

  datatype BaseMatch = BaseMatch(distance: real, strong: bool, reason: string)

  /** A chip that may count: it names a model, and its transformed distance is a distance. */
  datatype Hit = Hit(id: Key, distance: real, reason: string)

  type Groups = OMap<seq<Model>>

  // ---- the chips that count ------------------------------------------------------------------------

  function HitOf(c: Chip, transform: Transform): Option<Hit> {
    if c.modelId.None? || c.modelId.value.text == "" then None
    else
      match transform(c.distance)
      case NotFinite => None
      case Finite(d) => if d < 0.0 then None else Some(Hit(c.modelId.value, d, c.prompt))
  }

  function Hits(chips: seq<Chip>, transform: Transform): seq<Hit> {
    if chips == [] then []
    else
      var h := HitOf(chips[|chips| - 1], transform);
      Hits(chips[..|chips| - 1], transform) + if h.Some? then [h.value] else []
  }

  function AllHits(personal: seq<Chip>, global: seq<Chip>, o: Options): seq<Hit> {
    Hits(personal, o.personal) + Hits(global, o.global)
  }

  // ---- the closest chip of each model ---------------------------------------------------------------

  /** Keep a hit on a candidate that is closer than the one kept so far. */
  function Closer(best: OMap<Hit>, h: Hit, ids: set<Key>): OMap<Hit> {
    if h.id !in ids then best
    else if !best.Has(h.id) || h.distance < best.vals[h.id].distance then best.Set(h.id, h)
    else best
  }

  function Collected(best: OMap<Hit>, hits: seq<Hit>, ids: set<Key>): OMap<Hit> {
    if hits == [] then best
    else Closer(Collected(best, hits[..|hits| - 1], ids), hits[|hits| - 1], ids)
  }

  function IdsOf(models: seq<Model>): set<Key> {
    set m | m in models :: m.objectId
  }

  function MatchOf(h: Hit, strongAt: real): BaseMatch {
    BaseMatch(h.distance, h.distance < strongAt, h.reason)
  }

  function MatchesOf(best: OMap<Hit>, strongAt: real): OMap<BaseMatch> {
    OMap(best.keys, map k | k in best.vals :: MatchOf(best.vals[k], strongAt))
  }

  /** The model filed under an id in `new Map(...)`: the last one. */
  function LastWithId(models: seq<Model>, id: Key): Option<Model> {
    if models == [] then None
    else if models[|models| - 1].objectId == id then Some(models[|models| - 1])
    else LastWithId(models[..|models| - 1], id)
  }

  function Lookup(models: seq<Model>, ids: seq<Key>): (r: seq<Model>)
    ensures |r| <= |ids|
  {
    if ids == [] then []
    else
      var m := LastWithId(models, ids[|ids| - 1]);
      Lookup(models, ids[..|ids| - 1]) + if m.Some? then [m.value] else []
  }

  function DistanceIn(best: OMap<Hit>): Key -> real {
    k => if best.Has(k) then best.vals[k].distance else 0.0
  }

  /** Matched models by distance, then the others in their own order. */
  function OrderedModels(models: seq<Model>, best: OMap<Hit>): seq<Model> {
    if best.Size() == 0 then models
    else Lookup(models, Sort(best.keys, DistanceIn(best))) + Keep(models, LacksMatch(best))
  }

  // ---- the match of each card --------------------------------------------------------------------------

  /** The closest match among the variants, the first of several. */
  function BestOf(models: seq<Model>, matches: OMap<BaseMatch>): Option<BaseMatch> {
    if models == [] then None
    else
      var best, id := BestOf(models[..|models| - 1], matches), models[|models| - 1].objectId;
      if matches.Has(id) && (best.None? || matches.vals[id].distance < best.value.distance) then Some(matches.vals[id])
      else best
  }

  function Flat(groups: Groups, n: nat): seq<Model>
    requires n <= |groups.keys| && groups.Valid()
  {
    if n == 0 then []
    else
      assert groups.Listed(groups.keys[n - 1]);
      Flat(groups, n - 1) + groups.vals[groups.keys[n - 1]]
  }

  function CardsOf(groups: Groups, matches: OMap<BaseMatch>, n: nat): OMap<BaseMatch>
    requires n <= |groups.keys| && groups.Valid()
  {
    if n == 0 then Empty()
    else
      assert groups.Listed(groups.keys[n - 1]);
      var best := BestOf(groups.vals[groups.keys[n - 1]], matches);
      if best.Some? then CardsOf(groups, matches, n - 1).Set(groups.keys[n - 1], best.value)
      else CardsOf(groups, matches, n - 1)
  }

  function CardDistance(cards: OMap<BaseMatch>): Key -> real {
    k => if cards.Has(k) then cards.vals[k].distance else 0.0
  }

  function HasCard(cards: OMap<BaseMatch>): Key -> bool {
    k => cards.Has(k)
  }

  function LacksCard(cards: OMap<BaseMatch>): Key -> bool {
    k => !cards.Has(k)
  }

  function OrderedKeys(keys: seq<Key>, cards: OMap<BaseMatch>): seq<Key> {
    Sort(Keep(keys, HasCard(cards)), CardDistance(cards)) + Keep(keys, LacksCard(cards))
  }

  // ---- grouping ------------------------------------------------------------------------------------------

  function KeyOf(m: Model): Key {
    if m.collectionId.text != "" then m.collectionId else Key("_orphan:" + m.objectId.text)
  }

  function Push(groups: Groups, m: Model): Groups {
    groups.Set(KeyOf(m), (if groups.Has(KeyOf(m)) then groups.vals[KeyOf(m)] else []) + [m])
  }

  function Grouped(models: seq<Model>): Groups {
    if models == [] then Empty() else Push(Grouped(models[..|models| - 1]), models[|models| - 1])
  }

  function AgeOf(m: Model): real {
    -(m.createdAtMs as real)
  }

  function Age(): Model -> real {
    m => AgeOf(m)
  }

  function NewestFirst(models: seq<Model>): seq<Model> {
    Sort(models, Age())
  }

  // ---- the loops -------------------------------------------------------------------------------------------

  method Consider(start: OMap<Hit>, chips: seq<Chip>, transform: Transform, ids: set<Key>) returns (best: OMap<Hit>)
    ensures best == Collected(start, Hits(chips, transform), ids)
  {
    best := start;
    for i := 0 to |chips|
      invariant best == Collected(start, Hits(chips[..i], transform), ids)
    {
      var h := HitOf(chips[i], transform);
      assert chips[..i + 1][..i] == chips[..i];
      if h.Some? {
        assert (Hits(chips[..i], transform) + [h.value])[..|Hits(chips[..i], transform)|]
            == Hits(chips[..i], transform);
        if h.value.id in ids {
          if !best.Has(h.value.id) || h.value.distance < best.vals[h.value.id].distance {
            best := best.Set(h.value.id, h.value);
          }
        }
      } else {
        assert Hits(chips[..i], transform) + [] == Hits(chips[..i], transform);
      }
    }
    assert chips[..|chips|] == chips;
  }

  lemma KeyIsNew(best: OMap<Hit>, i: nat)
    requires best.Valid() && i < |best.keys|
    ensures best.Has(best.keys[i]) && best.keys[i] !in best.keys[..i]
  {
    assert best.Listed(best.keys[i]);
    forall j | 0 <= j < i ensures best.keys[j] != best.keys[i] {
      assert Apart(best.keys, j, i);
    }
  }

  method CopyMatches(best: OMap<Hit>, strongAt: real) returns (matches: OMap<BaseMatch>)
    requires best.Valid()
    ensures matches == MatchesOf(best, strongAt)
  {
    matches := Empty();
    for i := 0 to |best.keys|
      invariant matches.keys == best.keys[..i]
      invariant forall k :: k in matches.vals <==> k in best.keys[..i]
      invariant forall k :: k in matches.vals ==> best.Has(k) && matches.vals[k] == MatchOf(best.vals[k], strongAt)
    {
      KeyIsNew(best, i);
      matches := matches.Set(best.keys[i], MatchOf(best.vals[best.keys[i]], strongAt));
      assert best.keys[..i + 1] == best.keys[..i] + [best.keys[i]];
    }
    assert best.keys[..|best.keys|] == best.keys;
    forall k ensures k in matches.vals <==> k in best.vals {
      assert best.Listed(k);
    }
  }

  method RankForkableMatches(personal: seq<Chip>, global: seq<Chip>, forkable: seq<Model>, o: Options)
    returns (ordered: seq<Model>, matches: OMap<BaseMatch>)
    ensures var best := Collected(Empty(), AllHits(personal, global, o), IdsOf(forkable));
            ordered == OrderedModels(forkable, best) && matches == MatchesOf(best, o.strongAt)
  {
    var ids := IdsOf(forkable);
    var best := Consider(Empty(), personal, o.personal, ids);
    best := Consider(best, global, o.global, ids);
    CollectedConcat(Empty(), Hits(personal, o.personal), Hits(global, o.global), ids);
    CollectedValid(AllHits(personal, global, o), ids);
    if |best.keys| == 0 {
      EmptyHasNothing(best);
      return forkable, Empty();
    }
    matches := CopyMatches(best, o.strongAt);
    ordered := OrderedModels(forkable, best);
  }

  method RankCollectionMatches(personal: seq<Chip>, global: seq<Chip>, groups: Groups, o: Options)
    returns (orderedKeys: seq<Key>, cards: OMap<BaseMatch>)
    requires groups.Valid()
    ensures cards == Cards(personal, global, groups, o) && orderedKeys == OrderedKeys(groups.keys, cards)
  {
    var keys := groups.keys;
    var flat := Flat(groups, |keys|);
    var _, matches := RankForkableMatches(personal, global, flat, o);
    if |matches.keys| == 0 {
      NoMatchesNoCards(personal, global, groups, o, |keys|);
      KeepNone(keys, HasCard(Empty()));
      KeepAll(keys, LacksCard(Empty()));
      return keys, Empty();
    }
    cards := Empty();
    for i := 0 to |keys|
      invariant cards == CardsOf(groups, matches, i)
    {
      assert groups.Listed(keys[i]);
      var best := ClosestVariant(groups.vals[keys[i]], matches);
      if best.Some? {
        cards := cards.Set(keys[i], best.value);
      }
    }
    orderedKeys := OrderedKeys(keys, cards);
  }

  method ClosestVariant(variants: seq<Model>, matches: OMap<BaseMatch>) returns (best: Option<BaseMatch>)
    ensures best == BestOf(variants, matches)
  {
    best := None;
    for i := 0 to |variants|
      invariant best == BestOf(variants[..i], matches)
    {
      assert variants[..i + 1][..i] == variants[..i];
      var id := variants[i].objectId;
      if matches.Has(id) && (best.None? || matches.vals[id].distance < best.value.distance) {
        best := Some(matches.vals[id]);
      }
    }
    assert variants[..|variants|] == variants;
  }

  method GroupByCollection(models: seq<Model>) returns (groups: Groups)
    ensures groups == Grouped(models)
  {
    groups := Empty();
    for i := 0 to |models|
      invariant groups == Grouped(models[..i])
    {
      assert models[..i + 1][..i] == models[..i];
      var key := KeyOf(models[i]);
      if groups.Has(key) {
        groups := groups.Set(key, groups.vals[key] + [models[i]]);
      } else {
        groups := groups.Set(key, [] + [models[i]]);
      }
    }
    assert models[..|models|] == models;
  }

  // ---- the closest chip ---------------------------------------------------------------------------------------

  /** The matches of every model in the groups, and the cards made of them. */
  function Matches(personal: seq<Chip>, global: seq<Chip>, groups: Groups, o: Options): OMap<BaseMatch>
    requires groups.Valid()
  {
    MatchesOf(Collected(Empty(), AllHits(personal, global, o), IdsOf(Flat(groups, |groups.keys|))), o.strongAt)
  }

  function Cards(personal: seq<Chip>, global: seq<Chip>, groups: Groups, o: Options): OMap<BaseMatch>
    requires groups.Valid()
  {
    CardsOf(groups, Matches(personal, global, groups, o), |groups.keys|)
  }

  lemma {:induction false} CollectedConcat(start: OMap<Hit>, a: seq<Hit>, b: seq<Hit>, ids: set<Key>)
    ensures Collected(start, a + b, ids) == Collected(Collected(start, a, ids), b, ids)
    decreases |b|
  {
    if b == [] {
      assert a + b == a;
    } else {
      assert (a + b)[..|a + b| - 1] == a + b[..|b| - 1];
      CollectedConcat(start, a, b[..|b| - 1], ids);
    }
  }

  lemma {:induction false} CollectedValid(hits: seq<Hit>, ids: set<Key>)
    ensures Collected(Empty(), hits, ids).Valid()
  {
    if hits != [] {
      CollectedValid(hits[..|hits| - 1], ids);
      var h := hits[|hits| - 1];
      SetValid(Collected(Empty(), hits[..|hits| - 1], ids), h.id, h);
    }
  }

  lemma EmptyHasNothing(best: OMap<Hit>)
    requires best.Valid() && best.keys == []
    ensures best == Empty() && MatchesOf(best, 0.0) == Empty()
    ensures forall strongAt: real :: MatchesOf(best, strongAt) == Empty()
  {
    forall k ensures k !in best.vals {
      assert best.Listed(k);
    }
    assert best.vals == map[];
  }

  lemma {:induction false} NoMatchesNoCards(personal: seq<Chip>, global: seq<Chip>, groups: Groups, o: Options, n: nat)
    requires groups.Valid() && n <= |groups.keys| && Matches(personal, global, groups, o).keys == []
    ensures CardsOf(groups, Matches(personal, global, groups, o), n) == Empty()
  {
    var best := Collected(Empty(), AllHits(personal, global, o), IdsOf(Flat(groups, |groups.keys|)));
    CollectedValid(AllHits(personal, global, o), IdsOf(Flat(groups, |groups.keys|)));
    EmptyHasNothing(best);
    if n > 0 {
      NoMatchesNoCards(personal, global, groups, o, n - 1);
      assert groups.Listed(groups.keys[n - 1]);
      NoMatchNoBest(groups.vals[groups.keys[n - 1]]);
    }
  }

  lemma {:induction false} NoMatchNoBest(models: seq<Model>)
    ensures BestOf(models, Empty()) == None
  {
    if models != [] {
      NoMatchNoBest(models[..|models| - 1]);
    }
  }

  /** The chip names a model, by an id that is not empty, and its transformed distance is finite and not
      negative: it counts, with that distance, for that model. */
  ghost predicate Counts(c: Chip, transform: Transform, h: Hit) {
    && c.modelId == Some(h.id) && h.id.text != ""
    && transform(c.distance) == Finite(h.distance) && h.distance >= 0.0
    && c.prompt == h.reason
  }

  ghost predicate HitFrom(h: Hit, chips: seq<Chip>, transform: Transform) {
    exists c | c in chips :: Counts(c, transform, h)
  }

  lemma CountsIff(c: Chip, transform: Transform, h: Hit)
    ensures HitOf(c, transform) == Some(h) <==> Counts(c, transform, h)
  {
  }

  /** The hits are those of the chips that count, over both scopes. */
  lemma {:induction false} HitsAre(chips: seq<Chip>, transform: Transform, h: Hit)
    ensures h in Hits(chips, transform) <==> HitFrom(h, chips, transform)
  {
    if chips != [] {
      var init, last := chips[..|chips| - 1], chips[|chips| - 1];
      HitsAre(init, transform, h);
      CountsIff(last, transform, h);
      assert chips == init + [last];
      assert HitFrom(h, chips, transform) <==> HitFrom(h, init, transform) || Counts(last, transform, h) by {
        if Counts(last, transform, h) {
          assert last in chips;
        }
        if c :| c in init && Counts(c, transform, h) {
          assert c in chips;
        }
        if c :| c in chips && Counts(c, transform, h) {
          assert c in init || c == last;
        }
      }
    }
  }

  /** Personal chips come first, each scope with its own transformation of distances. */
  lemma AllHitsAre(personal: seq<Chip>, global: seq<Chip>, o: Options, h: Hit)
    ensures h in AllHits(personal, global, o) <==>
              || (exists c | c in personal :: Counts(c, o.personal, h))
              || (exists c | c in global :: Counts(c, o.global, h))
    ensures Hits(personal, o.personal) <= AllHits(personal, global, o)
    ensures AllHits(personal, global, o)[|Hits(personal, o.personal)|..] == Hits(global, o.global)
  {
    HitsAre(personal, o.personal, h);
    HitsAre(global, o.global, h);
  }

  /** Hit `i` is a closest one on its model, and the first such. */
  predicate FirstClosest(hits: seq<Hit>, i: nat) {
    && i < |hits|
    && forall j | 0 <= j < |hits| && hits[j].id == hits[i].id ::
         hits[i].distance <= hits[j].distance && (j < i ==> hits[i].distance < hits[j].distance)
  }

  /** No hit on the same model is closer, or as close and earlier. */
  ghost predicate Closest(h: Hit, hits: seq<Hit>) {
    exists i: nat | i < |hits| :: hits[i] == h && FirstClosest(hits, i)
  }

  lemma ClosestBeats(h: Hit, hits: seq<Hit>, x: Hit)
    requires Closest(h, hits) && x in hits && x.id == h.id
    ensures h in hits && h.distance <= x.distance
  {
    var i: nat :| i < |hits| && hits[i] == h && FirstClosest(hits, i);
    var j :| 0 <= j < |hits| && hits[j] == x;
  }

  predicate Names(hits: seq<Hit>, id: Key) {
    exists h | h in hits :: h.id == id
  }

  ghost predicate KeepsClosest(best: OMap<Hit>, hits: seq<Hit>, ids: set<Key>, id: Key) {
    && (best.Has(id) <==> id in ids && Names(hits, id))
    && (best.Has(id) ==> best.vals[id].id == id && Closest(best.vals[id], hits))
  }

  lemma CloserKeepsClosest(best: OMap<Hit>, hits: seq<Hit>, ids: set<Key>, h: Hit, id: Key)
    requires KeepsClosest(best, hits, ids, id)
    ensures KeepsClosest(Closer(best, h, ids), hits + [h], ids, id)
  {
    var all := hits + [h];
    assert h in all;
    assert Names(all, id) <==> Names(hits, id) || h.id == id by {
      if x :| x in hits && x.id == id {
        assert x in all;
      }
    }
    if best.Has(id) {
      var b := best.vals[id];
      var i: nat :| i < |hits| && hits[i] == b && FirstClosest(hits, i);
      assert all[i] == b && all[|hits|] == h;
      if h.id == id && h.distance < b.distance {
        assert FirstClosest(all, |hits|);
      } else {
        assert FirstClosest(all, i);
      }
    } else if h.id == id && id in ids {
      assert forall j | 0 <= j < |hits| :: hits[j] in hits && hits[j].id != id;
      assert all[|hits|] == h && FirstClosest(all, |hits|);
    }
  }

  /** After both loops, exactly the candidates some hit names are kept, each with a closest hit. */
  lemma {:induction false} CollectedIs(hits: seq<Hit>, ids: set<Key>, id: Key)
    ensures KeepsClosest(Collected(Empty(), hits, ids), hits, ids, id)
  {
    if hits != [] {
      var init, last := hits[..|hits| - 1], hits[|hits| - 1];
      CollectedIs(init, ids, id);
      CloserKeepsClosest(Collected(Empty(), init, ids), init, ids, last, id);
      assert init + [last] == hits;
    }
  }

  /** What the ranking tells of each model: matched exactly if some counting chip names it, by the first
      of its closest such chips over both scopes, personal ones first. */
  lemma MatchShowsClosestChip(models: seq<Model>, hits: seq<Hit>, strongAt: real, id: Key)
    ensures var matches := MatchesOf(Best(models, hits), strongAt);
            && (matches.Has(id) <==> (exists m | m in models :: m.objectId == id) && exists h | h in hits :: h.id == id)
            && (matches.Has(id) ==> exists i: nat | i < |hits| ::
                  && FirstClosest(hits, i) && hits[i].id == id
                  && matches.vals[id].distance == hits[i].distance && matches.vals[id].reason == hits[i].reason
                  && (matches.vals[id].strong <==> hits[i].distance < strongAt))
  {
    CollectedIs(hits, IdsOf(models), id);
    var best := Best(models, hits);
    if best.Has(id) {
      var i: nat :| i < |hits| && hits[i] == best.vals[id] && FirstClosest(hits, i);
    }
  }

  // ---- the match of a card -----------------------------------------------------------------------------------

  /** `best` is the match of variant `i`; no variant's match is closer, and no earlier one's as close. */
  predicate IsBestAt(models: seq<Model>, matches: OMap<BaseMatch>, best: BaseMatch, i: nat) {
    && i < |models| && matches.Has(models[i].objectId) && matches.vals[models[i].objectId] == best
    && forall j | 0 <= j < |models| && matches.Has(models[j].objectId) ::
         best.distance <= matches.vals[models[j].objectId].distance
         && (j < i ==> best.distance < matches.vals[models[j].objectId].distance)
  }

  ghost predicate IsBest(models: seq<Model>, matches: OMap<BaseMatch>, best: BaseMatch) {
    exists i: nat | i < |models| :: IsBestAt(models, matches, best, i)
  }

  lemma {:induction false} BestOfIs(models: seq<Model>, matches: OMap<BaseMatch>)
    ensures BestOf(models, matches).None? <==> forall m | m in models :: !matches.Has(m.objectId)
    ensures BestOf(models, matches).Some? ==> IsBest(models, matches, BestOf(models, matches).value)
  {
    if models != [] {
      var init, last := models[..|models| - 1], models[|models| - 1];
      BestOfIs(init, matches);
      assert models == init + [last] && last in models;
      assert forall m | m in models :: m in init || m == last;
      assert forall m | m in init :: m in models;
      BestOfStep(models, matches);
    }
  }

  lemma {:induction false} BestOfStep(models: seq<Model>, matches: OMap<BaseMatch>)
    requires models != []
    requires var init := models[..|models| - 1];
             && (BestOf(init, matches).None? ==> forall m | m in init :: !matches.Has(m.objectId))
             && (BestOf(init, matches).Some? ==> IsBest(init, matches, BestOf(init, matches).value))
    ensures BestOf(models, matches).Some? ==> IsBest(models, matches, BestOf(models, matches).value)
  {
    var n := |models| - 1;
    var init, b, before := models[..n], BestOf(models, matches), BestOf(models[..n], matches);
    if b.Some? {
      if before.Some? {
        var i: nat :| i < |init| && IsBestAt(init, matches, before.value, i);
        if b == before && !(matches.Has(models[n].objectId)
                            && matches.vals[models[n].objectId].distance < before.value.distance) {
          assert IsBestAt(models, matches, b.value, i);
        } else {
          assert IsBestAt(models, matches, b.value, n);
        }
      } else {
        assert forall j | 0 <= j < n :: init[j] in init && !matches.Has(models[j].objectId);
        assert IsBestAt(models, matches, b.value, n);
      }
    }
  }

  lemma {:induction false} FlatHolds(groups: Groups, n: nat, i: nat, m: Model)
    requires groups.Valid() && i < n <= |groups.keys| && groups.Has(groups.keys[i]) && m in groups.vals[groups.keys[i]]
    ensures m in Flat(groups, n)
  {
    assert groups.Listed(groups.keys[n - 1]);
    if i < n - 1 {
      FlatHolds(groups, n - 1, i, m);
    }
  }

  lemma {:induction false} CardsOfIs(groups: Groups, matches: OMap<BaseMatch>, n: nat, i: nat)
    requires groups.Valid() && n <= |groups.keys| && i < |groups.keys|
    ensures groups.Has(groups.keys[i])
    ensures var k, cards := groups.keys[i], CardsOf(groups, matches, n);
            if i < n then
              && (cards.Has(k) <==> BestOf(groups.vals[k], matches).Some?)
              && (cards.Has(k) ==> cards.vals[k] == BestOf(groups.vals[k], matches).value)
            else !cards.Has(k)
  {
    assert groups.Listed(groups.keys[i]);
    if n > 0 {
      assert groups.Listed(groups.keys[n - 1]);
      CardsOfIs(groups, matches, n - 1, i);
      if i < n - 1 {
        assert Apart(groups.keys, i, n - 1);
      } else if i > n - 1 {
        assert Apart(groups.keys, n - 1, i);
      }
    }
  }

  /** A hit on one of the variants. */
  predicate On(h: Hit, variants: seq<Model>) {
    exists m | m in variants :: m.objectId == h.id
  }

  predicate NoCloserOn(h: Hit, hits: seq<Hit>, variants: seq<Model>) {
    forall x | x in hits && On(x, variants) :: h.distance <= x.distance
  }

  /** The match of `h` is what a card shows for the variants: no hit on any of them is closer. */
  predicate Shows(card: BaseMatch, h: Hit, hits: seq<Hit>, variants: seq<Model>, strongAt: real) {
    && h in hits && On(h, variants) && NoCloserOn(h, hits, variants)
    && card.distance == h.distance && card.reason == h.reason && (card.strong <==> h.distance < strongAt)
  }

  /** A card is matched exactly when some counting chip, personal or global, names one of its
      variants; it then shows a chip at the minimum distance over all of those. */
  lemma CardShowsClosestChip(personal: seq<Chip>, global: seq<Chip>, groups: Groups, o: Options, i: nat)
    requires groups.Valid() && i < |groups.keys|
    ensures groups.Has(groups.keys[i])
    ensures var k, hits, cards := groups.keys[i], AllHits(personal, global, o), Cards(personal, global, groups, o);
            && (cards.Has(k) <==> exists h | h in hits :: On(h, groups.vals[k]))
            && (cards.Has(k) ==> exists h | h in hits :: Shows(cards.vals[k], h, hits, groups.vals[k], o.strongAt))
  {
    var n, hits := |groups.keys|, AllHits(personal, global, o);
    var flat := Flat(groups, n);
    var best, matches := Collected(Empty(), hits, IdsOf(flat)), Matches(personal, global, groups, o);
    CardsOfIs(groups, matches, n, i);
    var variants := groups.vals[groups.keys[i]];
    BestOfIs(variants, matches);
    forall m | m in variants ensures m.objectId in IdsOf(flat) && KeepsClosest(best, hits, IdsOf(flat), m.objectId) {
      FlatHolds(groups, n, i, m);
      CollectedIs(hits, IdsOf(flat), m.objectId);
    }
    if h :| h in hits && On(h, variants) {
      var m :| m in variants && m.objectId == h.id;
      assert Names(hits, m.objectId);
    }
    var card := BestOf(variants, matches);
    if card.Some? {
      BestIsShown(variants, best, matches, hits, IdsOf(flat), card.value, o.strongAt);
    }
  }

  lemma BestIsShown(variants: seq<Model>, best: OMap<Hit>, matches: OMap<BaseMatch>, hits: seq<Hit>, ids: set<Key>,
                    card: BaseMatch, strongAt: real)
    requires matches == MatchesOf(best, strongAt) && IsBest(variants, matches, card)
    requires forall m | m in variants :: m.objectId in ids && KeepsClosest(best, hits, ids, m.objectId)
    ensures exists h | h in hits :: Shows(card, h, hits, variants, strongAt)
  {
    var at: nat :| at < |variants| && IsBestAt(variants, matches, card, at);
    var v := variants[at];
    assert KeepsClosest(best, hits, ids, v.objectId);
    var h := best.vals[v.objectId];
    ClosestBeats(h, hits, h) by {
      var i: nat :| i < |hits| && hits[i] == h && FirstClosest(hits, i);
    }
    forall x | x in hits && On(x, variants) ensures h.distance <= x.distance {
      var m :| m in variants && m.objectId == x.id;
      assert KeepsClosest(best, hits, ids, m.objectId) && Names(hits, m.objectId);
      ClosestBeats(best.vals[m.objectId], hits, x);
      var j :| 0 <= j < |variants| && variants[j] == m;
    }
    assert Shows(card, h, hits, variants, strongAt);
  }

  // ---- the order of the cards -----------------------------------------------------------------------------------

  /** Matched keys at one distance. */
  function Tied(cards: OMap<BaseMatch>, d: real): Key -> bool {
    k => cards.Has(k) && cards.vals[k].distance == d
  }

  lemma {:induction false} KeepKeep(keys: seq<Key>, p: Key -> bool, q: Key -> bool)
    requires forall k | q(k) :: p(k)
    ensures Keep(Keep(keys, p), q) == Keep(keys, q)
  {
    if keys != [] {
      var init, last := keys[..|keys| - 1], keys[|keys| - 1];
      KeepKeep(init, p, q);
      if p(last) {
        KeepSnoc(Keep(init, p), last, q);
      } else {
        assert !q(last) && Keep(init, p) + [] == Keep(init, p);
      }
    }
  }

  /** The grid holds every key exactly as often as before: nothing is hidden or repeated. */
  lemma OrderedKeysPermute(keys: seq<Key>, cards: OMap<BaseMatch>)
    ensures multiset(OrderedKeys(keys, cards)) == multiset(keys)
  {
    KeepSplits(keys, HasCard(cards), LacksCard(cards));
    SortPermutes(Keep(keys, HasCard(cards)), CardDistance(cards));
  }

  /** First the matched keys by ascending distance, those at one distance in their old order; then
      the others in theirs. */
  lemma OrderedKeysRank(keys: seq<Key>, cards: OMap<BaseMatch>, d: real)
    ensures var r, n := OrderedKeys(keys, cards), |Keep(keys, HasCard(cards))|;
            && n <= |r|
            && Ascending(r[..n], CardDistance(cards))
            && (forall k | k in r[..n] :: cards.Has(k))
            && Keep(r[..n], Tied(cards, d)) == Keep(keys, Tied(cards, d))
            && r[n..] == Keep(keys, LacksCard(cards))
  {
    var matched := Keep(keys, HasCard(cards));
    var sorted := Sort(matched, CardDistance(cards));
    var r := OrderedKeys(keys, cards);
    assert r[..|matched|] == sorted && r[|matched|..] == Keep(keys, LacksCard(cards));
    SortAscends(matched, CardDistance(cards));
    SortIsStable(matched, CardDistance(cards), Tied(cards, d), d);
    KeepKeep(keys, HasCard(cards), Tied(cards, d));
    SortPermutes(matched, CardDistance(cards));
    forall k | k in sorted ensures cards.Has(k) {
      assert k in multiset(matched);
      KeepMembers(keys, HasCard(cards), k);
    }
  }

  // ---- the order of the models ------------------------------------------------------------------------------------

  ghost predicate DifferentAt<T>(s: seq<T>, i: int, j: int) {
    0 <= i < j < |s| ==> s[i] != s[j]
  }

  ghost predicate AllDifferent<T>(s: seq<T>) {
    forall i, j :: DifferentAt(s, i, j)
  }

  lemma {:induction false} AtMostOnce<T>(s: seq<T>, x: T)
    requires AllDifferent(s)
    ensures multiset(s)[x] == if x in s then 1 else 0
  {
    if s != [] {
      var init, last := s[..|s| - 1], s[|s| - 1];
      assert s == init + [last];
      forall i, j ensures DifferentAt(init, i, j) {
        assert DifferentAt(s, i, j);
      }
      AtMostOnce(init, x);
      forall i | 0 <= i < |init| ensures init[i] != last {
        assert DifferentAt(s, i, |s| - 1);
      }
    }
  }

  lemma DifferentIfOnce<T>(s: seq<T>)
    requires forall x | x in s :: multiset(s)[x] <= 1
    ensures AllDifferent(s)
  {
    forall i, j ensures DifferentAt(s, i, j) {
      if 0 <= i < j < |s| {
        assert s == s[..j] + s[j..];
        assert s[i] in s[..j] && s[j] in s[j..];
        assert multiset(s)[s[j]] == multiset(s[..j])[s[j]] + multiset(s[j..])[s[j]];
      }
    }
  }

  /** A permutation of a list without repetitions has none. */
  lemma StillDifferent<T>(a: seq<T>, b: seq<T>)
    requires AllDifferent(a) && multiset(b) <= multiset(a)
    ensures AllDifferent(b)
  {
    forall x | x in b ensures multiset(b)[x] <= 1 {
      AtMostOnce(a, x);
    }
    DifferentIfOnce(b);
  }

  lemma SameMultiset<T>(a: seq<T>, b: seq<T>)
    requires AllDifferent(a) && AllDifferent(b) && forall x :: x in a <==> x in b
    ensures multiset(a) == multiset(b)
  {
    forall x ensures multiset(a)[x] == multiset(b)[x] {
      AtMostOnce(a, x);
      AtMostOnce(b, x);
    }
  }

  function IdOf(m: Model): Key {
    m.objectId
  }

  ghost predicate DistinctIds(models: seq<Model>) {
    forall i, j | 0 <= i < j < |models| :: IdOf(models[i]) != IdOf(models[j])
  }

  lemma {:induction false} LastWithIdIs(models: seq<Model>, id: Key, m: Model)
    requires DistinctIds(models)
    ensures m in models && m.objectId == id <==> LastWithId(models, id) == Some(m)
  {
    if models != [] {
      var init, last := models[..|models| - 1], models[|models| - 1];
      assert models == init + [last];
      forall i, j | 0 <= i < j < |init| ensures IdOf(init[i]) != IdOf(init[j]) {
        assert IdOf(models[i]) != IdOf(models[j]);
      }
      LastWithIdIs(init, id, m);
      if last.objectId == id && m in init {
        var i :| 0 <= i < |init| && init[i] == m;
        assert IdOf(models[i]) != IdOf(models[|models| - 1]);
      }
    }
  }

  /** Looking up distinct ids that all have a model: one model each, in that order. */
  ghost predicate FoundAt(models: seq<Model>, ids: seq<Key>, i: nat) {
    i < |ids| == |Lookup(models, ids)| ==>
      Lookup(models, ids)[i] in models && IdOf(Lookup(models, ids)[i]) == ids[i]
  }

  /** Looking up distinct ids that all have a model: one model each, in that order. */
  lemma {:induction false} LookupIs(models: seq<Model>, ids: seq<Key>)
    requires DistinctIds(models) && forall id | id in ids :: id in IdsOf(models)
    ensures |Lookup(models, ids)| == |ids|
    ensures forall i: nat :: FoundAt(models, ids, i)
  {
    if ids != [] {
      var init, last := ids[..|ids| - 1], ids[|ids| - 1];
      assert forall id | id in init :: id in ids;
      LookupIs(models, init);
      assert last in ids;
      var m :| m in models && m.objectId == last;
      LastWithIdIs(models, last, m);
      forall i: nat ensures FoundAt(models, ids, i) {
        assert FoundAt(models, init, i);
      }
    }
  }

  function HasMatch(best: OMap<Hit>): Model -> bool {
    (m: Model) => best.Has(m.objectId)
  }

  function LacksMatch(best: OMap<Hit>): Model -> bool {
    (m: Model) => !best.Has(m.objectId)
  }

  lemma SortedKeysDifferent(best: OMap<Hit>)
    requires best.Valid()
    ensures AllDifferent(Sort(best.keys, DistanceIn(best)))
    ensures forall k :: k in Sort(best.keys, DistanceIn(best)) <==> best.Has(k)
  {
    var ks := Sort(best.keys, DistanceIn(best));
    SortPermutes(best.keys, DistanceIn(best));
    forall i, j ensures DifferentAt(best.keys, i, j) {
      if 0 <= i < j < |best.keys| {
        assert Apart(best.keys, i, j);
      }
    }
    StillDifferent(best.keys, ks);
    forall k ensures k in ks <==> best.Has(k) {
      assert k in ks <==> k in multiset(ks);
      assert best.Listed(k);
    }
  }

  /** The matched models, looked up by id, are those the filter would keep. */
  lemma LookupPermutes(models: seq<Model>, best: OMap<Hit>, ks: seq<Key>)
    requires DistinctIds(models) && AllDifferent(ks) && forall k :: k in ks <==> best.Has(k)
    requires forall k: Key | best.Has(k) :: k in IdsOf(models)
    ensures multiset(Lookup(models, ks)) == multiset(Keep(models, HasMatch(best)))
  {
    var found, kept := Lookup(models, ks), Keep(models, HasMatch(best));
    LookupIs(models, ks);
    forall i, j ensures DifferentAt(found, i, j) {
      if 0 <= i < j < |found| {
        assert DifferentAt(ks, i, j) && FoundAt(models, ks, i) && FoundAt(models, ks, j);
      }
    }
    KeepSplits(models, HasMatch(best), LacksMatch(best));
    StillDifferent(models, kept);
    forall m ensures m in found <==> m in kept {
      KeepMembers(models, HasMatch(best), m);
      if m in found {
        var i: nat :| i < |found| && found[i] == m;
        assert ks[i] in ks && FoundAt(models, ks, i);
      }
      if m in kept {
        var i: nat :| i < |ks| && ks[i] == m.objectId;
        assert FoundAt(models, ks, i);
        LastWithIdIs(models, ks[i], m);
        LastWithIdIs(models, ks[i], found[i]);
      }
    }
    SameMultiset(found, kept);
  }

  function Best(models: seq<Model>, hits: seq<Hit>): OMap<Hit> {
    Collected(Empty(), hits, IdsOf(models))
  }

  lemma BestFacts(models: seq<Model>, hits: seq<Hit>)
    ensures Best(models, hits).Valid()
    ensures forall k: Key | Best(models, hits).Has(k) :: k in IdsOf(models)
    ensures Best(models, hits).keys == [] ==> Best(models, hits) == Empty()
  {
    var best := Best(models, hits);
    CollectedValid(hits, IdsOf(models));
    forall k: Key | best.Has(k) ensures k in IdsOf(models) {
      CollectedIs(hits, IdsOf(models), k);
    }
    if best.keys == [] {
      EmptyHasNothing(best);
    }
  }

  /** Ranking loses no model and adds none. */
  lemma OrderedModelsPermute(models: seq<Model>, hits: seq<Hit>)
    requires DistinctIds(models)
    ensures multiset(OrderedModels(models, Best(models, hits))) == multiset(models)
  {
    var best := Best(models, hits);
    BestFacts(models, hits);
    if best.keys != [] {
      SortedKeysDifferent(best);
      LookupPermutes(models, best, Sort(best.keys, DistanceIn(best)));
      KeepSplits(models, HasMatch(best), LacksMatch(best));
    }
  }

  ghost predicate MatchedInOrder(r: seq<Model>, best: OMap<Hit>, i: nat, j: nat) {
    i <= j < |best.keys| <= |r| ==>
      best.Has(IdOf(r[i])) && best.Has(IdOf(r[j]))
      && best.vals[IdOf(r[i])].distance <= best.vals[IdOf(r[j])].distance
  }

  /** The matched models come first, closest first, and the others keep their order. */
  lemma OrderedModelsRank(models: seq<Model>, hits: seq<Hit>)
    requires DistinctIds(models)
    ensures var best := Best(models, hits);
            var r := OrderedModels(models, best);
            && |best.keys| <= |r|
            && (forall i: nat, j: nat :: MatchedInOrder(r, best, i, j))
            && r[|best.keys|..] == Keep(models, LacksMatch(best))
  {
    var best := Best(models, hits);
    var r := OrderedModels(models, best);
    BestFacts(models, hits);
    if best.keys == [] {
      KeepAll(models, LacksMatch(best));
      assert r[0..] == models;
    } else {
      var ks := Sort(best.keys, DistanceIn(best));
      SortedKeysDifferent(best);
      LookupIs(models, ks);
      SortAscends(best.keys, DistanceIn(best));
      forall i: nat, j: nat ensures MatchedInOrder(r, best, i, j) {
        if i <= j < |best.keys| {
          assert InOrder(ks, DistanceIn(best), i, j) && ks[i] in ks && ks[j] in ks;
          assert FoundAt(models, ks, i) && FoundAt(models, ks, j);
        }
      }
    }
  }

  /** No counting chip names the model. */
  ghost function Unmatched(hits: seq<Hit>): Model -> bool {
    (m: Model) => !exists h | h in hits :: h.id == m.objectId
  }

  /** The same in terms of the chips: the named models come first, by the distance of their closest
      counting chip, and the others keep their order. */
  lemma SearchRanksModels(personal: seq<Chip>, global: seq<Chip>, models: seq<Model>, o: Options)
    requires DistinctIds(models)
    ensures var hits := AllHits(personal, global, o);
            var r, n := OrderedModels(models, Best(models, hits)), |Best(models, hits).keys|;
            && n <= |r|
            && (forall i | 0 <= i < n :: exists h | h in hits :: h.id == r[i].objectId)
            && (forall i, j | 0 <= i <= j < n :: CloserModel(hits, r[i], r[j]))
            && r[n..] == Keep(models, Unmatched(hits))
  {
    var hits := AllHits(personal, global, o);
    var best := Best(models, hits);
    var r, n := OrderedModels(models, best), |best.keys|;
    OrderedModelsRank(models, hits);
    forall i | 0 <= i < n
      ensures exists h | h in hits :: h.id == r[i].objectId
    {
      assert MatchedInOrder(r, best, i, i);
      CollectedIs(hits, IdsOf(models), r[i].objectId);
    }
    forall i, j | 0 <= i <= j < n ensures CloserModel(hits, r[i], r[j]) {
      assert MatchedInOrder(r, best, i, j);
      CollectedIs(hits, IdsOf(models), r[i].objectId);
      CollectedIs(hits, IdsOf(models), r[j].objectId);
      forall h, x | h in hits && x in hits && Closest(h, hits) && Closest(x, hits)
                    && h.id == r[i].objectId && x.id == r[j].objectId
        ensures h.distance <= x.distance
      {
        ClosestBeats(h, hits, best.vals[r[i].objectId]) by {
          HitsHold(hits, best.vals[r[i].objectId]);
        }
        ClosestBeats(best.vals[r[j].objectId], hits, x);
      }
    }
    forall m | m in models
      ensures LacksMatch(best)(m) == Unmatched(hits)(m)
    {
      CollectedIs(hits, IdsOf(models), m.objectId);
    }
    KeepSame(models, LacksMatch(best), Unmatched(hits));
  }

  lemma HitsHold(hits: seq<Hit>, h: Hit)
    requires Closest(h, hits)
    ensures h in hits
  {
    var i: nat :| i < |hits| && hits[i] == h && FirstClosest(hits, i);
  }

  /** No closest chip of `a` is farther than a closest chip of `b`. */
  ghost predicate CloserModel(hits: seq<Hit>, a: Model, b: Model) {
    forall h, x | h in hits && x in hits && Closest(h, hits) && Closest(x, hits)
                  && h.id == a.objectId && x.id == b.objectId ::
      h.distance <= x.distance
  }

  // ---- grouping keeps order ---------------------------------------------------------------------------------------

  function InGroup(k: Key): Model -> bool {
    (m: Model) => KeyOf(m) == k
  }

  ghost predicate GroupHolds(groups: Groups, models: seq<Model>, k: Key) {
    && (groups.Has(k) <==> Keep(models, InGroup(k)) != [])
    && (groups.Has(k) ==> groups.vals[k] == Keep(models, InGroup(k)))
  }

  /** A group is the models of its key, in their order; a key is there for some model. */
  lemma {:induction false} GroupedIs(models: seq<Model>, k: Key)
    ensures Grouped(models).Valid() && GroupHolds(Grouped(models), models, k)
  {
    if models == [] {
      forall x ensures Grouped(models).Listed(x) {
      }
    } else {
      var init, last := models[..|models| - 1], models[|models| - 1];
      GroupedIs(init, k);
      var g := Grouped(init);
      SetValid(g, KeyOf(last), (if g.Has(KeyOf(last)) then g.vals[KeyOf(last)] else []) + [last]);
    }
  }

  lemma OrphanKeys(x: string, y: string)
    ensures "_orphan:" + x == "_orphan:" + y <==> x == y
  {
    assert ("_orphan:" + x)[8..] == x && ("_orphan:" + y)[8..] == y;
  }

  /** Two models are filed together exactly if they name one collection, or none while they have one id;
      or if one names as its collection the very key that stands for the other, which names none. */
  lemma SameCardIff(a: Model, b: Model)
    ensures KeyOf(a) == KeyOf(b) <==>
              || (a.collectionId.text != "" && a.collectionId == b.collectionId)
              || (a.collectionId.text == "" && b.collectionId.text == "" && a.objectId == b.objectId)
              || (a.collectionId.text == "" && b.collectionId.text == "_orphan:" + a.objectId.text)
              || (b.collectionId.text == "" && a.collectionId.text == "_orphan:" + b.objectId.text)
  {
    OrphanKeys(a.objectId.text, b.objectId.text);
  }

  /** Every model of the list is on exactly one card, with exactly the models filed together with it. */
  lemma OneCardEach(models: seq<Model>, a: Model, b: Model, k: Key)
    requires a in models
    ensures var g := Grouped(models);
            && g.Has(KeyOf(a)) && a in g.vals[KeyOf(a)]
            && (g.Has(k) && a in g.vals[k] ==> k == KeyOf(a))
            && (b in g.vals[KeyOf(a)] <==> b in models && KeyOf(a) == KeyOf(b))
  {
    GroupedIs(models, KeyOf(a));
    GroupedIs(models, k);
    KeepMembers(models, InGroup(KeyOf(a)), a);
    KeepMembers(models, InGroup(KeyOf(a)), b);
    KeepMembers(models, InGroup(k), a);
  }

  function HeadAgeAt(groups: Groups, k: Key): real {
    if groups.Has(k) && |groups.vals[k]| > 0 then AgeOf(groups.vals[k][0]) else 0.0
  }

  function HeadAge(groups: Groups): Key -> real {
    k => HeadAgeAt(groups, k)
  }

  lemma {:induction false} GroupsByHead(models: seq<Model>)
    requires Ascending(models, Age())
    ensures Ascending(Grouped(models).keys, HeadAge(Grouped(models)))
  {
    if models != [] {
      var init, last := models[..|models| - 1], models[|models| - 1];
      AscendingInit(models, Age());
      GroupsByHead(init);
      var g, r, key := Grouped(init), Grouped(models), KeyOf(last);
      GroupedIs(init, key);
      forall i | 0 <= i < |g.keys| ensures g.Has(g.keys[i]) && HeadAge(r)(g.keys[i]) == HeadAge(g)(g.keys[i]) {
        assert g.Listed(g.keys[i]);
      }
      var n := |g.keys|;
      if !g.Has(key) {
        forall i | 0 <= i < n ensures HeadAge(r)(r.keys[i]) <= HeadAge(r)(r.keys[n]) {
          HeadIsOlderThanLast(models, g.keys[i]);
        }
      }
      forall i, j ensures InOrder(r.keys, HeadAge(r), i, j) {
        assert InOrder(g.keys, HeadAge(g), i, j);
      }
    }
  }

  lemma HeadIsOlderThanLast(models: seq<Model>, k: Key)
    requires models != [] && Ascending(models, Age()) && Grouped(models[..|models| - 1]).Has(k)
    ensures HeadAge(Grouped(models[..|models| - 1]))(k) <= Age()(models[|models| - 1])
  {
    var init := models[..|models| - 1];
    GroupedIs(init, k);
    var head := Grouped(init).vals[k][0];
    KeepMembers(init, InGroup(k), head);
    var i :| 0 <= i < |init| && init[i] == head;
    assert InOrder(models, Age(), i, |models| - 1);
  }

  /** Fed newest first, the catalog loses no model, each card is headed by its newest variant, and
      the cards come by the age of those heads. */
  lemma CatalogIsNewestFirst(models: seq<Model>, i: nat, j: nat)
    requires i <= j < |Grouped(NewestFirst(models)).keys|
    ensures multiset(NewestFirst(models)) == multiset(models)
    ensures var g := Grouped(NewestFirst(models));
            && g.Has(g.keys[i]) && g.Has(g.keys[j]) && g.vals[g.keys[i]] != [] && g.vals[g.keys[j]] != []
            && (forall m | m in g.vals[g.keys[j]] ::
                  KeyOf(m) == g.keys[j] && m.createdAtMs <= g.vals[g.keys[j]][0].createdAtMs)
            && g.vals[g.keys[i]][0].createdAtMs >= g.vals[g.keys[j]][0].createdAtMs
  {
    var ms := NewestFirst(models);
    var g := Grouped(ms);
    SortPermutes(models, Age());
    SortAscends(models, Age());
    GroupedIs(ms, g.keys[i]);
    GroupedIs(ms, g.keys[j]);
    assert g.Listed(g.keys[i]) && g.Listed(g.keys[j]);
    GroupsByHead(ms);
    assert InOrder(g.keys, HeadAge(g), i, j);
    var group := g.vals[g.keys[j]];
    KeepAscends(ms, Age(), InGroup(g.keys[j]));
    forall m | m in group ensures KeyOf(m) == g.keys[j] && m.createdAtMs <= group[0].createdAtMs {
      KeepMembers(ms, InGroup(g.keys[j]), m);
      var n :| 0 <= n < |group| && group[n] == m;
      assert InOrder(group, Age(), 0, n);
    }
  }

  /** The whole search: over the groups of any catalog, the grid is a permutation of the cards. */
  lemma SearchHidesNothing(personal: seq<Chip>, global: seq<Chip>, models: seq<Model>, o: Options)
    ensures Grouped(models).Valid()
    ensures var g := Grouped(models);
            multiset(OrderedKeys(g.keys, Cards(personal, global, g, o))) == multiset(g.keys)
  {
    GroupedIs(models, Key(""));
    OrderedKeysPermute(Grouped(models).keys, Cards(personal, global, Grouped(models), o));
  }

  /** `h` is a closest hit on the variants. */
  predicate ClosestOn(h: Hit, hits: seq<Hit>, variants: seq<Model>) {
    h in hits && On(h, variants) && NoCloserOn(h, hits, variants)
  }

  /** Some counting chip names a model of the group. */
  ghost function NamedIn(g: Groups, hits: seq<Hit>): Key -> bool {
    k => g.Has(k) && exists h | h in hits :: On(h, g.vals[k])
  }

  ghost function UnnamedIn(g: Groups, hits: seq<Hit>): Key -> bool {
    k => !NamedIn(g, hits)(k)
  }

  /** The minimum distance of a chip that counts for the group is `d`. */
  ghost function NamedAt(g: Groups, hits: seq<Hit>, d: real): Key -> bool {
    k => g.Has(k) && exists h | h in hits :: ClosestOn(h, hits, g.vals[k]) && h.distance == d
  }

  /** The card of a key tells whether chips name its group, and how far the closest of them is. */
  lemma CardTells(personal: seq<Chip>, global: seq<Chip>, g: Groups, o: Options, k: Key)
    requires g.Valid() && k in g.keys
    ensures var cards, hits := Cards(personal, global, g, o), AllHits(personal, global, o);
            && g.Has(k)
            && (cards.Has(k) <==> NamedIn(g, hits)(k))
            && (cards.Has(k) ==>
                  forall h | h in hits && ClosestOn(h, hits, g.vals[k]) :: h.distance == cards.vals[k].distance)
            && (cards.Has(k) ==> NamedAt(g, hits, cards.vals[k].distance)(k))
            && (!cards.Has(k) ==> forall h :: !ClosestOn(h, hits, g.vals[k]))
  {
    var i :| 0 <= i < |g.keys| && g.keys[i] == k;
    CardShowsClosestChip(personal, global, g, o, i);
    var cards, hits := Cards(personal, global, g, o), AllHits(personal, global, o);
    if cards.Has(k) {
      var w :| w in hits && Shows(cards.vals[k], w, hits, g.vals[k], o.strongAt);
      assert ClosestOn(w, hits, g.vals[k]) && w.distance == cards.vals[k].distance;
    }
  }

  /** No closest chip of `a` is farther than a closest chip of `b`. */
  ghost predicate CloserCard(g: Groups, hits: seq<Hit>, a: Key, b: Key) {
    && g.Has(a) && g.Has(b)
    && forall h, x | h in hits && x in hits && ClosestOn(h, hits, g.vals[a]) && ClosestOn(x, hits, g.vals[b]) ::
         h.distance <= x.distance
  }

  /** The whole search over the groups of any catalog: first the cards some counting chip names, by the
      distance of the closest such chip over both scopes and all variants, those at one distance in
      their old order; then the others in theirs. */
  lemma SearchRanksCards(personal: seq<Chip>, global: seq<Chip>, models: seq<Model>, o: Options, d: real)
    ensures Grouped(models).Valid()
    ensures var g, hits := Grouped(models), AllHits(personal, global, o);
            var r, n := OrderedKeys(g.keys, Cards(personal, global, g, o)), |Keep(g.keys, NamedIn(g, hits))|;
            && n <= |r|
            && r[n..] == Keep(g.keys, UnnamedIn(g, hits))
            && Keep(r[..n], NamedAt(g, hits, d)) == Keep(g.keys, NamedAt(g, hits, d))
            && (forall k | k in r[..n] :: NamedIn(g, hits)(k))
            && forall i, j | 0 <= i <= j < n :: CloserCard(g, hits, r[i], r[j])
  {
    GroupedIs(models, Key(""));
    var g, hits := Grouped(models), AllHits(personal, global, o);
    var cards := Cards(personal, global, g, o);
    forall k | k in g.keys
      ensures HasCard(cards)(k) == NamedIn(g, hits)(k) && LacksCard(cards)(k) == UnnamedIn(g, hits)(k)
      ensures Tied(cards, d)(k) == NamedAt(g, hits, d)(k)
    {
      CardTells(personal, global, g, o, k);
    }
    KeepSame(g.keys, HasCard(cards), NamedIn(g, hits));
    KeepSame(g.keys, LacksCard(cards), UnnamedIn(g, hits));
    KeepSame(g.keys, Tied(cards, d), NamedAt(g, hits, d));
    OrderedKeysRank(g.keys, cards, d);
    OrderedKeysPermute(g.keys, cards);
    var r, n := OrderedKeys(g.keys, cards), |Keep(g.keys, NamedIn(g, hits))|;
    forall k | k in r[..n] ensures k in g.keys {
      assert k in multiset(r);
    }
    KeepSame(r[..n], Tied(cards, d), NamedAt(g, hits, d));
    forall i, j | 0 <= i <= j < n ensures CloserCard(g, hits, r[i], r[j]) {
      assert InOrder(r[..n], CardDistance(cards), i, j);
      assert r[i] in r[..n] && r[j] in r[..n];
      CardTells(personal, global, g, o, r[i]);
      CardTells(personal, global, g, o, r[j]);
    }
  }
}
