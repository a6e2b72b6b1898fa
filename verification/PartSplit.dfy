/**
 `SplitChannels` (backend/include/OpenEXR/ImfPartHelper.h): the three phases of multipart mode over
 ordered maps and sets, and the renaming loop of single-part mode, both overwriting the channel list.
 */
module PartSplit {
  import opened StringOrder
  import opened PartNames
  import opened PartNumbers

  /** `MultiViewChannelName`. */
  datatype Channel = Channel(name: string, view: string, part: int, internal: string)

  function PairOf(c: Channel): Pair {
    (Layer(c.name), c.view)
  }

  /** The (layer, view) pairs a channel list uses. */
  function Pairs(cs: seq<Channel>): set<Pair> {
    set c | c in cs :: PairOf(c)
  }

  /** The pairs an ordered map of sets stands for. */
  function PairsIn(views: map<string, set<string>>): set<Pair> {
    set l, v | l in views && v in views[l] :: (l, v)
  }

  lemma AddView(views: map<string, set<string>>, l: string, v: string)
    ensures var views' := views[l := (if l in views then views[l] else {}) + {v}];
            PairsIn(views') == PairsIn(views) + {(l, v)}
  {
  }

  lemma PairsSnoc(cs: seq<Channel>, c: Channel)
    ensures Pairs(cs + [c]) == Pairs(cs) + {PairOf(c)}
  {
  }

  /** Step 1: for each layer, the views in use. */
  method GroupViews(chans: array<Channel>) returns (views: map<string, set<string>>)
    ensures PairsIn(views) == Pairs(chans[..])
  {
    views := map[];
    for i := 0 to chans.Length
      invariant PairsIn(views) == Pairs(chans[..i])
    {
      var l, v := Layer(chans[i].name), chans[i].view;
      AddView(views, l, v);
      PairsSnoc(chans[..i], chans[i]);
      assert chans[..i + 1] == chans[..i] + [chans[i]];
      views := views[l := (if l in views then views[l] else {}) + {v}];
    }
    assert chans[..chans.Length] == chans[..];
  }

  /** The table so far numbers exactly the pairs in `done`, each by its rank among all `pairs`. */
  ghost predicate Numbered(pairs: set<Pair>, hero: string, done: set<Pair>, table: map<Pair, int>, count: int) {
    && done <= pairs
    && table.Keys == done
    && count == |done|
    && (forall p :: p in done ==> table[p] == Rank(pairs, hero, p))
  }

  /** The pairs of one layer whose views are in `vs`. */
  function InLayer(l: string, vs: set<string>): set<Pair> {
    set v | v in vs :: (l, v)
  }

  /** `layerToPart[p] = partCount++` when `done` is everything before `p`. */
  lemma NumberNext(pairs: set<Pair>, hero: string, done: set<Pair>, table: map<Pair, int>, count: int, p: Pair)
    requires Numbered(pairs, hero, done, table, count) && p in pairs && p !in done
    requires forall q :: q in done ==> PairBefore(hero, q, p)
    requires forall q :: q in pairs && q !in done && q != p ==> PairBefore(hero, p, q)
    ensures Numbered(pairs, hero, done + {p}, table[p := count], count + 1)
  {
    NextNumber(pairs, hero, done, p);
  }

  /** Everything in `done` is in an earlier layer than `l`, and everything else of another layer is later. */
  ghost predicate LayerIsNext(pairs: set<Pair>, done: set<Pair>, l: string) {
    && (forall q :: q in done ==> Before(q.0, l))
    && (forall q :: q in pairs && q !in done && q.0 != l ==> Before(l, q.0))
  }

  /** The keys visited so far all come before those still to come. */
  predicate Visited(all: set<string>, todo: set<string>) {
    todo <= all && forall a, b :: a in all - todo && b in todo ==> Before(a, b)
  }

  lemma VisitLeast(all: set<string>, todo: set<string>, m: string)
    requires Visited(all, todo) && IsLeast(todo, m)
    ensures Visited(all, todo - {m})
  {
  }

  function HeroOf(vs: set<string>, hero: string): set<string> {
    if hero in vs then {hero} else {}
  }

  /** The hero view is inserted before the loop over the views. */
  lemma NumberHero(pairs: set<Pair>, hero: string, done: set<Pair>, l: string, vs: set<string>,
                   table: map<Pair, int>, count: int)
    requires Numbered(pairs, hero, done, table, count) && LayerIsNext(pairs, done, l)
    requires forall v :: (l, v) in pairs <==> v in vs
    ensures hero in vs ==> Numbered(pairs, hero, done + InLayer(l, {hero}), table[(l, hero) := count], count + 1)
    ensures hero !in vs ==> Numbered(pairs, hero, done + InLayer(l, {}), table, count)
  {
    if hero in vs {
      HeroIsNext(pairs, hero, done, l, vs);
      NumberNext(pairs, hero, done, table, count, (l, hero));
      assert done + {(l, hero)} == done + InLayer(l, {hero});
    } else {
      assert done == done + InLayer(l, {});
    }
  }

  /** What has a number when the views outside `todo` have been visited; the hero got its number up front. */
  function Seen(done: set<Pair>, l: string, vs: set<string>, todo: set<string>, hero: string): set<Pair> {
    done + InLayer(l, (vs - todo) + HeroOf(vs, hero))
  }

  lemma SeenGrows(done: set<Pair>, l: string, vs: set<string>, todo: set<string>, v: string, hero: string)
    requires v in todo && todo <= vs
    ensures Seen(done, l, vs, todo - {v}, hero) ==
            if v == hero then Seen(done, l, vs, todo, hero) else Seen(done, l, vs, todo, hero) + {(l, v)}
  {
    var now, next := (vs - todo) + HeroOf(vs, hero), (vs - (todo - {v})) + HeroOf(vs, hero);
    assert next == now + {v};
    assert InLayer(l, next) == InLayer(l, now) + {(l, v)};
  }

  /** The next view in order gets the next number, unless it is the hero, which has one already. */
  lemma NumberView(pairs: set<Pair>, hero: string, done: set<Pair>, l: string, vs: set<string>, todo: set<string>,
                   v: string, table: map<Pair, int>, count: int)
    requires LayerIsNext(pairs, done, l) && (forall w :: (l, w) in pairs <==> w in vs)
    requires Visited(vs, todo) && IsLeast(todo, v)
    requires Numbered(pairs, hero, Seen(done, l, vs, todo, hero), table, count)
    ensures var seen := Seen(done, l, vs, todo - {v}, hero);
            if v != hero then Numbered(pairs, hero, seen, table[(l, v) := count], count + 1)
            else Numbered(pairs, hero, seen, table, count)
  {
    SeenGrows(done, l, vs, todo, v, hero);
    if v != hero {
      ViewIsNext(pairs, hero, done, l, vs, todo, v);
      NumberNext(pairs, hero, Seen(done, l, vs, todo, hero), table, count, (l, v));
    }
  }

  /** Step 2, one view. */
  method NumberOne(ghost pairs: set<Pair>, hero: string, ghost done: set<Pair>, l: string, vs: set<string>,
                   todo: set<string>, v: string, table0: map<Pair, int>, count0: int)
    returns (table: map<Pair, int>, count: int)
    requires LayerIsNext(pairs, done, l) && (forall w :: (l, w) in pairs <==> w in vs)
    requires Visited(vs, todo) && IsLeast(todo, v)
    requires Numbered(pairs, hero, Seen(done, l, vs, todo, hero), table0, count0)
    ensures Numbered(pairs, hero, Seen(done, l, vs, todo - {v}, hero), table, count)
  {
    table, count := table0, count0;
    NumberView(pairs, hero, done, l, vs, todo, v, table, count);
    if v != hero {
      table, count := table[(l, v) := count], count + 1;
    }
  }

  lemma SeenAtFirst(done: set<Pair>, l: string, vs: set<string>, hero: string)
    ensures Seen(done, l, vs, vs, hero) == done + InLayer(l, HeroOf(vs, hero))
    ensures Seen(done, l, vs, {}, hero) == done + InLayer(l, vs)
  {
    assert (vs - vs) + HeroOf(vs, hero) == HeroOf(vs, hero);
    assert (vs - {}) + HeroOf(vs, hero) == vs;
  }

  /** Step 2, one layer: the hero view if there, then the other views ascending. */
  method NumberLayer(ghost pairs: set<Pair>, hero: string, ghost done: set<Pair>, l: string, vs: set<string>,
                     table0: map<Pair, int>, count0: int)
    returns (table: map<Pair, int>, count: int)
    requires Numbered(pairs, hero, done, table0, count0)
    requires LayerIsNext(pairs, done, l)
    requires forall v :: (l, v) in pairs <==> v in vs
    ensures Numbered(pairs, hero, done + InLayer(l, vs), table, count)
  {
    table, count := table0, count0;
    NumberHero(pairs, hero, done, l, vs, table, count);
    if hero in vs {
      table, count := table[(l, hero) := count], count + 1;
    }
    SeenAtFirst(done, l, vs, hero);
    var todo := vs;
    while todo != {}
      invariant Visited(vs, todo)
      invariant Numbered(pairs, hero, Seen(done, l, vs, todo, hero), table, count)
      decreases todo
    {
      var v := Least(todo);
      table, count := NumberOne(pairs, hero, done, l, vs, todo, v, table, count);
      VisitLeast(vs, todo, v);
      todo := todo - {v};
    }
  }

  lemma HeroIsNext(pairs: set<Pair>, hero: string, done: set<Pair>, l: string, vs: set<string>)
    requires LayerIsNext(pairs, done, l) && hero in vs && forall v :: (l, v) in pairs <==> v in vs
    ensures (l, hero) in pairs && (l, hero) !in done
    ensures forall q :: q in done ==> PairBefore(hero, q, (l, hero))
    ensures forall q :: q in pairs && q !in done && q != (l, hero) ==> PairBefore(hero, (l, hero), q)
  {
    Trichotomy(l, l);
  }

  lemma ViewIsNext(pairs: set<Pair>, hero: string, done: set<Pair>, l: string, vs: set<string>, todo: set<string>,
                   v: string)
    requires LayerIsNext(pairs, done, l) && (forall w :: (l, w) in pairs <==> w in vs)
    requires Visited(vs, todo) && IsLeast(todo, v) && v != hero
    ensures var seen := done + InLayer(l, (vs - todo) + HeroOf(vs, hero));
            && (l, v) in pairs && (l, v) !in seen
            && (forall q :: q in seen ==> PairBefore(hero, q, (l, v)))
            && (forall q :: q in pairs && q !in seen && q != (l, v) ==> PairBefore(hero, (l, v), q))
  {
    Trichotomy(l, l);
    Trichotomy(v, v);
    var views := (vs - todo) + HeroOf(vs, hero);
    var seen := done + InLayer(l, views);
    forall q | q in pairs && q !in seen && q != (l, v)
      ensures PairBefore(hero, (l, v), q)
    {
      if q.0 == l {
        assert q == (l, q.1) && q.1 in vs;
        assert q.1 !in views;
      }
    }
  }

  /** After the layers outside `todo`, the least layer of `todo` is next. */
  lemma LeastLayerIsNext(views: map<string, set<string>>, todo: set<string>, l: string, done: set<Pair>)
    requires Visited(views.Keys, todo) && IsLeast(todo, l)
    requires forall p :: p in done <==> p in PairsIn(views) && p.0 !in todo
    ensures LayerIsNext(PairsIn(views), done, l)
    ensures forall v :: (l, v) in PairsIn(views) <==> v in views[l]
    ensures forall p :: p in done + InLayer(l, views[l]) <==> p in PairsIn(views) && p.0 !in todo - {l}
  {
    forall p
      ensures p in done + InLayer(l, views[l]) <==> p in PairsIn(views) && p.0 !in todo - {l}
    {
      if p.0 == l {
        assert p == (l, p.1);
      }
    }
  }

  /** Step 2: number every (layer, view) pair. */
  method AssignParts(views: map<string, set<string>>, hero: string) returns (table: map<Pair, int>, count: int)
    ensures Numbered(PairsIn(views), hero, PairsIn(views), table, count)
  {
    table, count := map[], 0;
    ghost var pairs := PairsIn(views);
    var todo := views.Keys;
    ghost var done: set<Pair> := {};
    while todo != {}
      invariant Visited(views.Keys, todo)
      invariant forall p :: p in done <==> p in pairs && p.0 !in todo
      invariant Numbered(pairs, hero, done, table, count)
      decreases todo
    {
      var l := Least(todo);
      LeastLayerIsNext(views, todo, l, done);
      VisitLeast(views.Keys, todo, l);
      table, count := NumberLayer(pairs, hero, done, l, views[l], table, count);
      done := done + InLayer(l, views[l]);
      todo := todo - {l};
    }
    assert done == pairs;
  }

  /** The whole function. */
  method SplitChannels(chans: array<Channel>, multipart: bool, hero: string) returns (parts: int)
    modifies chans
    ensures !multipart ==> parts == 1
    ensures !multipart ==> forall i :: 0 <= i < chans.Length ==>
              var c := old(chans[i]);
              chans[i] == c.(part := 0, internal := InternalName(c.name, c.view, hero))
    ensures multipart ==> parts == |Pairs(old(chans[..]))|
    ensures multipart ==> forall i :: 0 <= i < chans.Length ==>
              var c := old(chans[i]);
              chans[i] == c.(part := Rank(Pairs(old(chans[..])), hero, PairOf(c)), internal := c.name)
  {
    if !multipart {
      RenameAll(chans, hero);
      return 1;
    }
    ghost var pairs := Pairs(chans[..]);
    var views := GroupViews(chans);
    var table, count := AssignParts(views, hero);
    forall i | 0 <= i < chans.Length
      ensures PairOf(chans[i]) in table
    {
      ListedPair(chans[..], chans[..][i]);
    }
    NumberAll(chans, table);
    parts := count;
  }

  /** A channel once its number is known. */
  function Renumbered(c: Channel, part: int): Channel {
    c.(internal := c.name, part := part)
  }

  /** Step 3: every channel's pair is in the table, so the lookup never creates an entry. */
  method NumberAll(chans: array<Channel>, table: map<Pair, int>)
    requires forall i :: 0 <= i < chans.Length ==> PairOf(chans[i]) in table
    modifies chans
    ensures forall i :: 0 <= i < chans.Length ==> chans[i] == Renumbered(old(chans[i]), table[PairOf(old(chans[i]))])
  {
    for i := 0 to chans.Length
      invariant forall j :: i <= j < chans.Length ==> chans[j] == old(chans[j])
      invariant forall j :: 0 <= j < i ==> chans[j] == Renumbered(old(chans[j]), table[PairOf(old(chans[j]))])
    {
      var c := chans[i];
      chans[i] := Renumbered(c, table[PairOf(c)]);
    }
  }

  /** Single-part mode. */
  method RenameAll(chans: array<Channel>, hero: string)
    modifies chans
    ensures forall i :: 0 <= i < chans.Length ==>
              var c := old(chans[i]);
              chans[i] == c.(part := 0, internal := InternalName(c.name, c.view, hero))
  {
    for i := 0 to chans.Length
      invariant forall j :: i <= j < chans.Length ==> chans[j] == old(chans[j])
      invariant forall j :: 0 <= j < i ==>
                  var c := old(chans[j]);
                  chans[j] == c.(part := 0, internal := InternalName(c.name, c.view, hero))
    {
      chans[i] := chans[i].(part := 0);
      if chans[i].view == "" {
        chans[i] := chans[i].(internal := chans[i].name);
      } else {
        var lname := Layer(chans[i].name);
        if lname == "" {
          if chans[i].view == hero {
            chans[i] := chans[i].(internal := chans[i].name);
          } else {
            chans[i] := chans[i].(internal := chans[i].view + "." + chans[i].name);
          }
        } else {
          chans[i] := chans[i].(internal := lname + "." + chans[i].view + "." + Suffix(chans[i].name));
        }
      }
    }
  }

  // ---------------------------------------------------------------------------------------------
  // What the numbers mean for a channel list
  // ---------------------------------------------------------------------------------------------

  /** The part number multipart mode gives channel `c` of the list `cs`. */
  function PartOf(cs: seq<Channel>, hero: string, c: Channel): nat {
    Rank(Pairs(cs), hero, PairOf(c))
  }

  lemma ListedPair(cs: seq<Channel>, c: Channel)
    requires c in cs
    ensures PairOf(c) in Pairs(cs)
  {
  }

  /** Two channels share a part exactly when their layers and views agree, and parts are below the count. */
  lemma SamePartIffSamePair(cs: seq<Channel>, hero: string, c: Channel, d: Channel)
    requires c in cs && d in cs
    ensures PartOf(cs, hero, c) == PartOf(cs, hero, d) <==> Layer(c.name) == Layer(d.name) && c.view == d.view
    ensures PartOf(cs, hero, c) < |Pairs(cs)|
  {
    ListedPair(cs, c);
    ListedPair(cs, d);
    NumbersFollowTheOrder(Pairs(cs), hero, PairOf(c), PairOf(d));
    RankInRange(Pairs(cs), hero, PairOf(c));
  }

  /** Parts in order: layers ascend; in a layer the hero view is first and the other views ascend. */
  lemma PartsFollowLayersAndViews(cs: seq<Channel>, hero: string, c: Channel, d: Channel)
    requires c in cs && d in cs
    ensures var l, m := Layer(c.name), Layer(d.name);
            PartOf(cs, hero, c) < PartOf(cs, hero, d) <==>
            || Ascends(l, m)
            || (l == m && c.view != d.view && (c.view == hero || (d.view != hero && Ascends(c.view, d.view))))
  {
    ListedPair(cs, c);
    ListedPair(cs, d);
    NumbersSpelledOut(Pairs(cs), hero, Layer(c.name), c.view, Layer(d.name), d.view);
  }

  /** Every part below the count has a channel: no part is empty. */
  lemma NoPartIsEmpty(cs: seq<Channel>, hero: string, k: nat) returns (c: Channel)
    requires k < |Pairs(cs)|
    ensures c in cs && PartOf(cs, hero, c) == k
  {
    var p := EveryNumberIsUsed(Pairs(cs), hero, k);
    c :| c in cs && PairOf(c) == p;
  }

  /** The channels a list names, whatever their order, multiplicity and old numbers. */
  function Named(cs: seq<Channel>): set<(string, string)> {
    set c | c in cs :: (c.name, c.view)
  }

  /** Reordering the list or repeating entries changes neither the count nor any channel's part. */
  lemma NumberingIgnoresOrderAndRepeats(cs: seq<Channel>, ds: seq<Channel>, hero: string, c: Channel, d: Channel)
    requires Named(cs) == Named(ds) && c.name == d.name && c.view == d.view
    ensures |Pairs(cs)| == |Pairs(ds)| && PartOf(cs, hero, c) == PartOf(ds, hero, d)
  {
    PairsFromNames(cs, ds);
    PairsFromNames(ds, cs);
    assert Pairs(cs) == Pairs(ds);
  }

  lemma PairsFromNames(cs: seq<Channel>, ds: seq<Channel>)
    requires Named(cs) <= Named(ds)
    ensures Pairs(cs) <= Pairs(ds)
  {
    forall c | c in cs
      ensures PairOf(c) in Pairs(ds)
    {
      assert (c.name, c.view) in Named(cs);
      var d :| d in ds && d.name == c.name && d.view == c.view;
      ListedPair(ds, d);
    }
  }
}
