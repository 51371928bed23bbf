/**
  One conversation's cached member list under handlers that are not atomic: a handler that finds no list asks the
  database and stores the answer later, and a handler that changes the members drops the cached list afterwards.
 */
module CacheRaces {
  import opened Common

  type Handler = nat

  // A member list with the number of changes the database had made when it answered.
  datatype Listing = Listing(members: set<Account>, asOf: nat)

  datatype World = World(
    history: seq<set<Account>>,             // the active members at first and after every change
    pending: set<nat>,                      // the changes whose handler has not dropped the cached list yet
    readers: map<Handler, Option<Listing>>, // who found no list, with the database's answer once it came
    cache: Option<Listing>)

  datatype Event =
    | Miss(k: Handler)
    | Query(k: Handler)
    | Fill(k: Handler)
    | Change(members: set<Account>)
    | Drop(n: nat)
    | Evict  // the list gives way to another conversation's, or the whole cache is cleared

  function Start(members: set<Account>): World {
    World([members], {}, map[], None)
  }

  predicate Enabled(w: World, e: Event) {
    match e
    case Miss(k) => k !in w.readers && w.cache.None?
    case Query(k) => k in w.readers && w.readers[k].None?
    case Fill(k) => k in w.readers && w.readers[k].Some?
    case Drop(n) => n in w.pending
    case _ => true
  }

  function Next(w: World, e: Event): World
    requires w.history != []
    ensures Next(w, e).history != []
  {
    match e
    case Miss(k) => w.(readers := w.readers[k := None])
    case Query(k) =>
      w.(readers := w.readers[k := Some(Listing(w.history[|w.history| - 1], |w.history| - 1))])
    case Fill(k) =>
      if k in w.readers then w.(readers := w.readers - {k}, cache := w.readers[k]) else w
    case Change(members) => w.(history := w.history + [members], pending := w.pending + {|w.history|})
    case Drop(n) => w.(pending := w.pending - {n}, cache := None)
    case Evict => w.(cache := None)
  }

  function Run(members: set<Account>, es: seq<Event>): (w: World)
    ensures w.history != []
  {
    if es == [] then Start(members) else Next(Run(members, es[..|es| - 1]), es[|es| - 1])
  }

  predicate ValidRun(members: set<Account>, es: seq<Event>) {
    forall i :: 0 <= i < |es| ==> Enabled(Run(members, es[..i]), es[i])
  }

  // ---- what a schedule says ----

  function Changes(es: seq<Event>): nat {
    if es == [] then 0 else Changes(es[..|es| - 1]) + if es[|es| - 1].Change? then 1 else 0
  }

  /** How many changes precede the handler's last query. */
  function AskedAt(es: seq<Event>, k: Handler): nat {
    if es == [] then 0
    else if es[|es| - 1] == Query(k) then Changes(es[..|es| - 1])
    else AskedAt(es[..|es| - 1], k)
  }

  predicate AllDropped(es: seq<Event>) {
    forall n :: 0 < n <= Changes(es) ==> Drop(n) in es
  }

  /** Step i stores a list that a change has overtaken, when every change so far has already had its drop. */
  predicate LateFill(es: seq<Event>, i: nat)
    requires i < |es|
  {
    es[i].Fill? && AskedAt(es[..i], es[i].k) < Changes(es[..i]) && AllDropped(es[..i])
  }

  // ---- the state is what the schedule says ----

  predicate Exact(w: World, l: Listing) {
    l.asOf < |w.history| && l.members == w.history[l.asOf]
  }

  ghost predicate Tells(es: seq<Event>, w: World) {
    && |w.history| == Changes(es) + 1
    && (forall n :: n in w.pending <==> 0 < n <= Changes(es) && Drop(n) !in es)
    && (forall n: nat :: Drop(n) in es ==> n <= Changes(es))
    && (forall k :: k in w.readers && w.readers[k].Some? ==>
          Exact(w, w.readers[k].value) && w.readers[k].value.asOf == AskedAt(es, k))
    && (w.cache.Some? ==> Exact(w, w.cache.value))
  }

  lemma StepTells(es: seq<Event>, w: World, e: Event)
    requires Tells(es, w) && Enabled(w, e)
    ensures Tells(es + [e], Next(w, e))
  {
    assert (es + [e])[..|es|] == es;
  }

  lemma ValidPrefixes(members: set<Account>, es: seq<Event>, e: Event)
    ensures ValidRun(members, es + [e]) <==> ValidRun(members, es) && Enabled(Run(members, es), e)
  {
    hide Enabled, Run;
    var more := es + [e];
    assert more[..|es|] == es && more[|es|] == e;
    forall i | 0 <= i < |es| ensures more[..i] == es[..i] && more[i] == es[i] {}
    if ValidRun(members, more) {
      forall i | 0 <= i < |es| ensures Enabled(Run(members, es[..i]), es[i]) {
        assert Enabled(Run(members, more[..i]), more[i]);
      }
      assert Enabled(Run(members, more[..|es|]), more[|es|]);
    }
  }

  lemma {:induction false} RunTells(members: set<Account>, es: seq<Event>)
    requires ValidRun(members, es)
    ensures Tells(es, Run(members, es))
    decreases |es|
  {
    hide ValidRun, Enabled, Next, Tells;
    if es == [] {
      StartTells(members);
    } else {
      var most, e := es[..|es| - 1], es[|es| - 1];
      assert most + [e] == es;
      ValidPrefixes(members, most, e);
      RunTells(members, most);
      StepTells(most, Run(members, most), e);
    }
  }

  lemma StartTells(members: set<Account>)
    ensures Tells([], Start(members))
  {}

  // ---- when the cached list can be trusted ----

  function Current(w: World): set<Account>
    requires w.history != []
  {
    w.history[|w.history| - 1]
  }

  /** A cached list is older than the last change only while some drop is still to come. */
  predicate Sound(w: World) {
    w.pending == {} && w.cache.Some? ==> w.cache.value.asOf + 1 == |w.history|
  }

  lemma StepSoundIff(es: seq<Event>, w: World, e: Event)
    requires Tells(es, w) && Enabled(w, e) && Sound(w)
    ensures Sound(Next(w, e)) <==> !LateFill(es + [e], |es|)
  {
    assert (es + [e])[..|es|] == es;
    if e.Fill? {
      assert AllDropped(es) <==> w.pending == {};
    } else if e.Change? {
      assert |w.history| in Next(w, e).pending;
    }
  }

  ghost predicate AlwaysSound(members: set<Account>, es: seq<Event>) {
    forall i :: 0 <= i <= |es| ==> Sound(Run(members, es[..i]))
  }

  ghost predicate NoLateFill(es: seq<Event>) {
    forall i :: 0 <= i < |es| ==> !LateFill(es, i)
  }

  lemma LatePrefixes(es: seq<Event>, e: Event)
    ensures NoLateFill(es + [e]) <==> NoLateFill(es) && !LateFill(es + [e], |es|)
  {
    hide AskedAt, Changes, AllDropped;
    var more := es + [e];
    forall i | 0 <= i < |es| ensures LateFill(more, i) <==> LateFill(es, i) {
      assert more[..i] == es[..i] && more[i] == es[i];
    }
    NoLateAt(more, es, e);
  }

  lemma NoLateAt(more: seq<Event>, es: seq<Event>, e: Event)
    requires |more| == |es| + 1 && forall i :: 0 <= i < |es| ==> (LateFill(more, i) <==> LateFill(es, i))
    ensures NoLateFill(more) <==> NoLateFill(es) && !LateFill(more, |es|)
  {
    hide LateFill;
    if NoLateFill(more) {
      forall i | 0 <= i < |es| ensures !LateFill(es, i) { assert !LateFill(more, i); }
    }
  }

  lemma SoundPrefixes(members: set<Account>, es: seq<Event>, e: Event)
    ensures AlwaysSound(members, es + [e]) <==> AlwaysSound(members, es) && Sound(Run(members, es + [e]))
  {
    hide Enabled, Next, Sound, Run;
    var more := es + [e];
    assert more[..|more|] == more;
    forall i | 0 <= i <= |es| ensures more[..i] == es[..i] {}
    if AlwaysSound(members, more) {
      assert Sound(Run(members, more[..|more|]));
      forall i | 0 <= i <= |es| ensures Sound(Run(members, es[..i])) { assert Sound(Run(members, more[..i])); }
    }
  }

  lemma PrefixesAgree(members: set<Account>, es: seq<Event>, e: Event)
    ensures ValidRun(members, es + [e]) <==> ValidRun(members, es) && Enabled(Run(members, es), e)
    ensures Run(members, es + [e]) == Next(Run(members, es), e)
    ensures AlwaysSound(members, es + [e]) <==> AlwaysSound(members, es) && Sound(Run(members, es + [e]))
    ensures NoLateFill(es + [e]) <==> NoLateFill(es) && !LateFill(es + [e], |es|)
  {
    hide ValidRun, Enabled, Next, AlwaysSound, NoLateFill, LateFill;
    assert (es + [e])[..|es|] == es;
    ValidPrefixes(members, es, e);
    SoundPrefixes(members, es, e);
    LatePrefixes(es, e);
  }

  /**
    In every interleaving: the cached list is the current one whenever no drop is outstanding, through the whole
    run, if and only if no handler stores a list that a change has overtaken after all drops have run.
   */
  lemma {:induction false} CacheRightIff(members: set<Account>, es: seq<Event>)
    requires ValidRun(members, es)
    ensures AlwaysSound(members, es) <==> NoLateFill(es)
    ensures var w := Run(members, es);
            NoLateFill(es) && w.pending == {} && w.cache.Some? ==> w.cache.value.members == Current(w)
    decreases |es|
  {
    hide ValidRun, AlwaysSound, NoLateFill, LateFill, Next, Enabled;
    RunTells(members, es);
    assert es[..|es|] == es;
    if es == [] {
      NothingYet(members);
    } else {
      var most, e := es[..|es| - 1], es[|es| - 1];
      assert most + [e] == es;
      PrefixesAgree(members, most, e);
      CacheRightIff(members, most);
      SoundAtEnd(members, most);
      RunTells(members, most);
      if Sound(Run(members, most)) { StepSoundIff(most, Run(members, most), e); }
    }
    SoundAtEnd(members, es);
  }

  lemma NothingYet(members: set<Account>)
    ensures AlwaysSound(members, []) && NoLateFill([])
    ensures ValidRun(members, []) && Run(members, []) == Start(members) && Changes([]) == 0
    ensures forall k :: AskedAt([], k) == 0
  {}

  lemma SoundAtEnd(members: set<Account>, es: seq<Event>)
    ensures AlwaysSound(members, es) ==> Sound(Run(members, es))
  {
    assert es[..|es|] == es;
  }

  lemma OneMore(members: set<Account>, es: seq<Event>, e: Event, w: World)
    requires ValidRun(members, es) && Run(members, es) == w && Enabled(w, e)
    ensures ValidRun(members, es + [e]) && Run(members, es + [e]) == Next(w, e)
    ensures Changes(es + [e]) == Changes(es) + if e.Change? then 1 else 0
    ensures forall k :: AskedAt(es + [e], k) == if e == Query(k) then Changes(es) else AskedAt(es, k)
  {
    hide Enabled, Next, AlwaysSound, NoLateFill;
    assert (es + [e])[..|es|] == es;
    PrefixesAgree(members, es, e);
  }

  const BOTH: set<Account> := {"ann", "bob"}

  // Ann leaves while handler 1, which found no list, already has the database's answer.
  function Leaving(): seq<Event> {
    [] + [Miss(1)] + [Query(1)] + [Change({"bob"})] + [Drop(1)]
  }

  // What has happened when handler 1 comes to store its answer.
  lemma SheHasLeft()
    ensures ValidRun(BOTH, Leaving()) && Changes(Leaving()) == 1 && AskedAt(Leaving(), 1) == 0
    ensures Run(BOTH, Leaving()) == World([BOTH, {"bob"}], {}, map[1 := Some(Listing(BOTH, 0))], None)
  {
    var w1 := Next(Start(BOTH), Miss(1));
    var w2 := Next(w1, Query(1));
    var w3 := Next(w2, Change({"bob"}));
    var w4 := Next(w3, Drop(1));
    assert w4 == World([BOTH, {"bob"}], {}, map[1 := Some(Listing(BOTH, 0))], None);
    hide ValidRun, Run, AskedAt, Changes, Next;
    NothingYet(BOTH);
    OneMore(BOTH, [], Miss(1), Start(BOTH));
    OneMore(BOTH, [] + [Miss(1)], Query(1), w1);
    OneMore(BOTH, [] + [Miss(1)] + [Query(1)], Change({"bob"}), w2);
    OneMore(BOTH, [] + [Miss(1)] + [Query(1)] + [Change({"bob"})], Drop(1), w3);
  }

  /** The list stored after that names her, and nothing outstanding will drop it. */
  lemma LateFillStaysStale()
    ensures var w := Run(BOTH, Leaving() + [Fill(1)]);
            && ValidRun(BOTH, Leaving() + [Fill(1)]) && LateFill(Leaving() + [Fill(1)], 4)
            && w.pending == {} && Current(w) == {"bob"} && w.cache == Some(Listing(BOTH, 0))
  {
    hide ValidRun, Run, AskedAt, Changes;
    SheHasLeft();
    OneMore(BOTH, Leaving(), Fill(1), Run(BOTH, Leaving()));
    assert Leaving()[3] == Drop(1);
    assert (Leaving() + [Fill(1)])[..4] == Leaving();
  }
}
