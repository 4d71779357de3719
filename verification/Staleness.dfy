/** The read-through cache under overlapping readers and writers: how old a list
    served from it can be. */
module Staleness {
  import opened Text
  import opened Registry
  import opened ListCache

  /** A cached list with the time it was read from the repository, the moment of
      the log it was read at, and the time it was stored. */
  datatype Entry = Entry(verb: string, list: seq<Endpoint>, seen: nat, readAt: nat, setAt: nat)

  /** log lists the repository's contents with the time each became current. */
  datatype World = World(
    now: nat,
    log: seq<(nat, Tables)>,
    entries: map<string, Entry>,
    readers: map<nat, Entry>)

  /** Redis keeps an entry set without a positive time-to-live forever. */
  predicate Live(e: Entry, ttl: nat, now: nat) {
    ttl == 0 || now < e.setAt + ttl
  }

  /** One action of a reader, a writer or the clock. A write may be followed by its
      invalidation at any later time, or never. */
  datatype Action =
    | Tick(d: nat)
    | Write(tables: Tables)
    | DropKey(key: string)
    | Miss(reader: nat, verb: string)
    | Store(reader: nat)
    | GiveUp(reader: nat)
    | Hit(verb: string)

  predicate CanAct(w: World, ttl: nat, a: Action) {
    match a
    case Miss(reader, verb) => reader !in w.readers && IsUpper(verb) && w.log != []
    case Store(reader) => reader in w.readers
    case Hit(verb) =>
      IsUpper(verb) && EndpointListKey(verb) in w.entries && Live(w.entries[EndpointListKey(verb)], ttl, w.now)
    case _ => true
  }

  function Act(w: World, ttl: nat, a: Action): World
    requires CanAct(w, ttl, a)
  {
    match a
    case Tick(d) => w.(now := w.now + d)
    case Write(tables) => w.(log := w.log + [(w.now, tables)])
    case DropKey(key) => w.(entries := w.entries - {key})
    case Miss(reader, verb) =>
      var seen := |w.log| - 1;
      w.(readers := w.readers[reader := Entry(verb, ListActive(w.log[seen].1, verb), seen, w.now, w.now)])
    case Store(reader) =>
      var read := w.readers[reader];
      w.(entries := w.entries[EndpointListKey(read.verb) := read.(setAt := w.now)], readers := w.readers - {reader})
    case GiveUp(reader) => w.(readers := w.readers - {reader})
    case Hit(_) => w
  }

  predicate Acts(w: World, ttl: nat, actions: seq<Action>)
    decreases |actions|
  {
    actions == [] || (CanAct(w, ttl, actions[0]) && Acts(Act(w, ttl, actions[0]), ttl, actions[1..]))
  }

  function Reach(w: World, ttl: nat, actions: seq<Action>): World
    requires Acts(w, ttl, actions)
    decreases |actions|
  {
    if actions == [] then w else Reach(Act(w, ttl, actions[0]), ttl, actions[1..])
  }

  /** Moment i of the log was the repository's state at time at. */
  predicate CurrentAt(log: seq<(nat, Tables)>, i: nat, at: nat) {
    i < |log| && log[i].0 <= at && (i + 1 < |log| ==> at <= log[i + 1].0)
  }

  predicate EntryOk(w: World, e: Entry) {
    IsUpper(e.verb) && CurrentAt(w.log, e.seen, e.readAt) && e.list == ListActive(w.log[e.seen].1, e.verb)
    && e.readAt <= e.setAt <= w.now
  }

  predicate Consistent(w: World) {
    && (forall i :: 0 <= i < |w.log| ==> w.log[i].0 <= w.now)
    && (forall key :: key in w.entries ==> EntryOk(w, w.entries[key]) && EndpointListKey(w.entries[key].verb) == key)
    && (forall reader :: reader in w.readers ==> EntryOk(w, w.readers[reader]))
  }

  lemma EntryStaysOk(w: World, w': World, e: Entry)
    requires EntryOk(w, e) && w.now <= w'.now
    requires w'.log == w.log || exists t :: w'.log == w.log + [(w.now, t)]
    ensures EntryOk(w', e)
  {
  }

  lemma ClockAndWritesKeepConsistent(w: World, ttl: nat, a: Action)
    requires Consistent(w) && CanAct(w, ttl, a) && (a.Tick? || a.Write?)
    ensures Consistent(Act(w, ttl, a))
  {
    var w' := Act(w, ttl, a);
    forall key | key in w'.entries
      ensures EntryOk(w', w'.entries[key])
    {
      EntryStaysOk(w, w', w.entries[key]);
    }
    forall reader | reader in w'.readers
      ensures EntryOk(w', w'.readers[reader])
    {
      EntryStaysOk(w, w', w.readers[reader]);
    }
  }

  lemma MissKeepsConsistent(w: World, ttl: nat, a: Action)
    requires Consistent(w) && CanAct(w, ttl, a) && a.Miss?
    ensures Consistent(Act(w, ttl, a))
  {
    var w' := Act(w, ttl, a);
    forall reader | reader in w'.readers
      ensures EntryOk(w', w'.readers[reader])
    {
      if reader in w.readers {
        EntryStaysOk(w, w', w.readers[reader]);
      }
    }
    forall key | key in w'.entries
      ensures EntryOk(w', w'.entries[key])
    {
      EntryStaysOk(w, w', w.entries[key]);
    }
  }

  lemma StoreKeepsConsistent(w: World, ttl: nat, a: Action)
    requires Consistent(w) && CanAct(w, ttl, a) && a.Store?
    ensures Consistent(Act(w, ttl, a))
  {
    var w' := Act(w, ttl, a);
    var read := w.readers[a.reader];
    assert EntryOk(w, read);
    forall key | key in w'.entries
      ensures EntryOk(w', w'.entries[key]) && EndpointListKey(w'.entries[key].verb) == key
    {
      if key == EndpointListKey(read.verb) {
        EntryStaysOk(w, w', read.(setAt := w.now));
      } else {
        EntryStaysOk(w, w', w.entries[key]);
      }
    }
    forall reader | reader in w'.readers
      ensures EntryOk(w', w'.readers[reader])
    {
      EntryStaysOk(w, w', w.readers[reader]);
    }
  }

  lemma OthersKeepConsistent(w: World, ttl: nat, a: Action)
    requires Consistent(w) && CanAct(w, ttl, a) && (a.DropKey? || a.GiveUp? || a.Hit?)
    ensures Consistent(Act(w, ttl, a))
  {
    var w' := Act(w, ttl, a);
    forall key | key in w'.entries
      ensures EntryOk(w', w'.entries[key]) && EndpointListKey(w'.entries[key].verb) == key
    {
      EntryStaysOk(w, w', w.entries[key]);
    }
    forall reader | reader in w'.readers
      ensures EntryOk(w', w'.readers[reader])
    {
      EntryStaysOk(w, w', w.readers[reader]);
    }
  }

  lemma ActKeepsConsistent(w: World, ttl: nat, a: Action)
    requires Consistent(w) && CanAct(w, ttl, a)
    ensures Consistent(Act(w, ttl, a))
  {
    match a
    case Tick(_) => ClockAndWritesKeepConsistent(w, ttl, a);
    case Write(_) => ClockAndWritesKeepConsistent(w, ttl, a);
    case Miss(_, _) => MissKeepsConsistent(w, ttl, a);
    case Store(_) => StoreKeepsConsistent(w, ttl, a);
    case _ => OthersKeepConsistent(w, ttl, a);
  }

  lemma {:induction false} ReachKeepsConsistent(w: World, ttl: nat, actions: seq<Action>)
    requires Consistent(w) && Acts(w, ttl, actions)
    ensures Consistent(Reach(w, ttl, actions))
    decreases |actions|
  {
    if actions == [] {
    } else {
      ActKeepsConsistent(w, ttl, actions[0]);
      ReachKeepsConsistent(Act(w, ttl, actions[0]), ttl, actions[1..]);
    }
  }

  /** list was the repository's answer for verb at time at. */
  predicate ListedAt(w: World, verb: string, list: seq<Endpoint>, i: nat, at: nat) {
    CurrentAt(w.log, i, at) && list == ListActive(w.log[i].1, verb)
  }

  lemma HitIsRecentIn(w: World, ttl: nat, verb: string) returns (i: nat, at: nat)
    requires Consistent(w) && ttl > 0 && CanAct(w, ttl, Hit(verb))
    ensures
      var e := w.entries[EndpointListKey(verb)];
      ListedAt(w, verb, e.list, i, at) && at <= w.now < at + ttl + (e.setAt - e.readAt)
  {
    var e := w.entries[EndpointListKey(verb)];
    KeysInjective(e.verb, verb);
    i, at := e.seen, e.readAt;
  }

  /** In every interleaving, a list served from the cache was the repository's list
      at some moment no longer ago than the time-to-live plus the gap between the
      entry's read and its Set, whatever invalidations failed or came late. */
  lemma HitIsRecent(w: World, ttl: nat, actions: seq<Action>, verb: string) returns (i: nat, at: nat)
    requires Consistent(w) && ttl > 0 && Acts(w, ttl, actions)
    requires CanAct(Reach(w, ttl, actions), ttl, Hit(verb))
    ensures
      var w' := Reach(w, ttl, actions);
      var e := w'.entries[EndpointListKey(verb)];
      ListedAt(w', verb, e.list, i, at) && at <= w'.now < at + ttl + (e.setAt - e.readAt)
  {
    ReachKeepsConsistent(w, ttl, actions);
    i, at := HitIsRecentIn(Reach(w, ttl, actions), ttl, verb);
  }

  lemma WriteThenWait(w: World, verb: string, tables: Tables, wait: nat)
    requires CanAct(w, 0, Hit(verb))
    ensures Acts(w, 0, [Write(tables), Tick(wait)])
    ensures
      var w' := Reach(w, 0, [Write(tables), Tick(wait)]);
      && CanAct(w', 0, Hit(verb))
      && w'.entries == w.entries
      && w'.log == w.log + [(w.now, tables)]
      && w'.now == w.now + wait
  {
    var actions := [Write(tables), Tick(wait)];
    var w1 := Act(w, 0, actions[0]);
    assert actions[1..] == [Tick(wait)];
    assert [Tick(wait)][1..] == [];
    var w2 := Act(w1, 0, [Tick(wait)][0]);
    assert Acts(w2, 0, []) && Reach(w2, 0, []) == w2;
    assert Acts(w1, 0, [Tick(wait)]) && Reach(w1, 0, [Tick(wait)]) == w2;
  }

  /** Without a positive time-to-live there is no such bound: when a write that
      changes a cached list is not invalidated, the entry is still served after any
      wait, and its list was not the repository's at any moment of the wait. */
  lemma NoTimeToLiveNoBound(w: World, verb: string, tables: Tables, wait: nat)
    requires Consistent(w) && CanAct(w, 0, Hit(verb))
    requires ListActive(tables, verb) != w.entries[EndpointListKey(verb)].list
    ensures Acts(w, 0, [Write(tables), Tick(wait)])
    ensures
      var w' := Reach(w, 0, [Write(tables), Tick(wait)]);
      && CanAct(w', 0, Hit(verb))
      && forall i: nat, at: nat ::
           ListedAt(w', verb, w'.entries[EndpointListKey(verb)].list, i, at) ==> at + wait <= w'.now
  {
    WriteThenWait(w, verb, tables, wait);
  }
}
