/** The deferred tool store (agent/app/mcp/lazy_tools.py): the active tools of a
    request, the task-scoped state behind them and the tool registry must name the
    same tools. */
module LazyTools {
  import opened Ordering

  const DEFAULT_MCP_TOOL_IDLE_ROUNDS := 6

  datatype Active = Active(loadedTurn: int, lastUsedTurn: int, signature: string)

  /** Everything that names deferred tools: the catalogue (name to server signature),
      the active tools, the shared state and the names in the registry. */
  datatype Shelf = Shelf(entries: map<string, string>, active: map<string, Active>,
                         loaded: set<string>, signatures: map<string, string>, activeSignatures: set<string>,
                         lastUsed: map<string, int>, registered: set<string>)

  function SignaturesOf(active: map<string, Active>): set<string> {
    set name | name in active :: active[name].signature
  }

  /** The names of the shared state agree with each other. */
  predicate StateAgrees(v: Shelf) {
    v.loaded == v.signatures.Keys == v.lastUsed.Keys
  }

  /** The five copies name the same tools and carry the same data. */
  predicate Agree(v: Shelf) {
    && StateAgrees(v) && v.active.Keys == v.loaded && v.loaded <= v.entries.Keys
    && (forall name :: name in v.active ==> v.active[name] == Active(v.active[name].loadedTurn, v.lastUsed[name], v.entries[name])
                                            && v.signatures[name] == v.entries[name])
    && v.activeSignatures == SignaturesOf(v.active)
    && v.registered * v.entries.Keys == v.active.Keys
  }

  /*------------------------------------- steps ---------------------------------*/

  function AddEntry(v: Shelf, name: string, signature: string): Shelf {
    if name in v.entries then v else v.(entries := v.entries[name := signature])
  }

  function LoadOne(v: Shelf, name: string, turn: int): Shelf
    requires name in v.entries
  {
    v.(active := v.active[name := Active(turn, turn, v.entries[name])], loaded := v.loaded + {name},
       signatures := v.signatures[name := v.entries[name]], activeSignatures := v.activeSignatures + {v.entries[name]},
       lastUsed := v.lastUsed[name := turn], registered := v.registered + {name})
  }

  function LoadAll(v: Shelf, names: seq<string>, turn: int): (w: Shelf)
    requires forall i :: 0 <= i < |names| ==> names[i] in v.entries
    ensures w.entries == v.entries
  {
    if names == [] then v
    else
      var n := |names| - 1;
      LoadOne(LoadAll(v, names[..n], turn), names[n], turn)
  }

  function UnloadOne(v: Shelf, name: string): Shelf {
    var active := v.active - {name};
    var signature := if name in v.signatures then v.signatures[name] else "";
    v.(active := active, loaded := v.loaded - {name}, signatures := v.signatures - {name}, lastUsed := v.lastUsed - {name},
       activeSignatures := if signature in SignaturesOf(active) then v.activeSignatures else v.activeSignatures - {signature},
       registered := v.registered - {name})
  }

  function UseOne(v: Shelf, name: string, turn: int): Shelf {
    if name !in v.active then v
    else
      var last := if v.active[name].lastUsedTurn < turn then turn else v.active[name].lastUsedTurn;
      v.(active := v.active[name := v.active[name].(lastUsedTurn := last)], lastUsed := v.lastUsed[name := last])
  }

  predicate Idle(a: Active, turn: int, idleRounds: nat) {
    turn > a.loadedTurn && turn - a.lastUsedTurn >= idleRounds
  }

  function IdleNames(v: Shelf, turn: int, idleRounds: nat): set<string> {
    set name | name in v.active && Idle(v.active[name], turn, idleRounds)
  }

  /*------------------------------ restoring a request --------------------------*/

  function LoadedSignature(v: Shelf, name: string): string {
    if name in v.signatures then v.signatures[name] else if name in v.entries then v.entries[name] else ""
  }

  function LastUsedTurn(v: Shelf, name: string, turn: int): int {
    if name in v.lastUsed then v.lastUsed[name] else turn
  }

  /** A loaded tool that the new request still offers and that is not idle. */
  predicate Warm(v: Shelf, name: string, turn: int, idleRounds: nat) {
    name in v.entries && LoadedSignature(v, name) == v.entries[name] && turn - LastUsedTurn(v, name, turn) < idleRounds
  }

  function WarmNames(v: Shelf, turn: int, idleRounds: nat): set<string> {
    set name | name in v.loaded && Warm(v, name, turn, idleRounds)
  }

  /** The active entries of the tools that are rebound. */
  function Rebound(v: Shelf, names: set<string>, turn: int): map<string, Active> {
    map name | name in names && name in v.entries :: Active(turn, LastUsedTurn(v, name, turn), v.entries[name])
  }

  function Restored(v: Shelf, turn: int, idleRounds: nat): Shelf {
    var warm := WarmNames(v, turn, idleRounds);
    var cold := v.loaded - warm;
    var active := v.active + Rebound(v, warm, turn);
    v.(active := active, loaded := warm, signatures := v.signatures - cold, lastUsed := v.lastUsed - cold,
       activeSignatures := SignaturesOf(active), registered := v.registered + warm)
  }

  /** One round of the loop over the loaded names. */
  function RebindStep(w: Shelf, name: string, turn: int, idleRounds: nat): Shelf {
    if Warm(w, name, turn, idleRounds) then
      w.(active := w.active[name := Active(turn, LastUsedTurn(w, name, turn), w.entries[name])],
         activeSignatures := w.activeSignatures + {w.entries[name]}, registered := w.registered + {name})
    else
      w.(loaded := w.loaded - {name}, signatures := w.signatures - {name}, lastUsed := w.lastUsed - {name})
  }

  /** The loaded names outside todo have been rebound or dropped. */
  ghost predicate Rebinding(v: Shelf, w: Shelf, todo: set<string>, turn: int, idleRounds: nat) {
    var warm := WarmNames(v, turn, idleRounds);
    && w.entries == v.entries
    && Dropped(v, w, v.loaded - warm - todo)
    && w.registered == v.registered + (warm - todo)
    && w.active == v.active + Rebound(v, warm - todo, turn)
  }

  ghost predicate Dropped(v: Shelf, w: Shelf, cold: set<string>) {
    w.loaded == v.loaded - cold && w.signatures == v.signatures - cold && w.lastUsed == v.lastUsed - cold
  }

  lemma {:induction false} NothingRebound(v: Shelf, turn: int, idleRounds: nat)
    ensures Rebinding(v, v, v.loaded, turn, idleRounds)
  {
    hide Warm;
    var warm := WarmNames(v, turn, idleRounds);
    assert warm - v.loaded == {} && v.loaded - warm - v.loaded == {};
  }

  lemma {:induction false} DropOneMore(v: Shelf, w: Shelf, cold: set<string>, name: string)
    requires Dropped(v, w, cold)
    ensures w.loaded - {name} == v.loaded - (cold + {name}) && w.signatures - {name} == v.signatures - (cold + {name})
    ensures w.lastUsed - {name} == v.lastUsed - (cold + {name})
  {
  }

  lemma {:induction false} RebindOneMore(v: Shelf, names: set<string>, name: string, turn: int)
    requires name in v.entries
    ensures (v.active + Rebound(v, names, turn))[name := Active(turn, LastUsedTurn(v, name, turn), v.entries[name])]
         == v.active + Rebound(v, names + {name}, turn)
  {
    hide LastUsedTurn;
  }

  lemma {:induction false} RebindKeeps(v: Shelf, w: Shelf, todo: set<string>, name: string, turn: int, idleRounds: nat)
    requires Rebinding(v, w, todo, turn, idleRounds) && name in todo && todo <= v.loaded
    ensures Rebinding(v, RebindStep(w, name, turn, idleRounds), todo - {name}, turn, idleRounds)
  {
    hide Rebound;
    var warm := WarmNames(v, turn, idleRounds);
    var cold := v.loaded - warm - todo;
    assert Warm(w, name, turn, idleRounds) <==> name in warm;
    hide Warm, WarmNames;
    if name in warm {
      assert v.loaded - warm - (todo - {name}) == cold;
      assert warm - (todo - {name}) == (warm - todo) + {name};
      assert name !in cold;
      RebindOneMore(v, warm - todo, name, turn);
    } else {
      assert v.loaded - warm - (todo - {name}) == cold + {name};
      assert warm - (todo - {name}) == warm - todo;
      DropOneMore(v, w, cold, name);
    }
  }

  lemma {:induction false} AllRebound(v: Shelf, w: Shelf, turn: int, idleRounds: nat)
    requires Rebinding(v, w, {}, turn, idleRounds)
    ensures w.(activeSignatures := SignaturesOf(w.active)) == Restored(v, turn, idleRounds)
  {
    hide SignaturesOf, Warm, Rebound;
    var warm := WarmNames(v, turn, idleRounds);
    assert warm - {} == warm && v.loaded - warm - {} == v.loaded - warm;
    assert v.loaded - (v.loaded - warm) == warm;
  }

  /*------------------------------------ theorems -------------------------------*/

  lemma {:induction false} LoadAgrees(v: Shelf, name: string, turn: int)
    requires Agree(v) && name in v.entries
    ensures Agree(LoadOne(v, name, turn))
  {
    var w := LoadOne(v, name, turn);
    forall s
      ensures s in w.activeSignatures <==> s in SignaturesOf(w.active)
    {
      if s in SignaturesOf(v.active) {
        var n :| n in v.active && v.active[n].signature == s;
        assert n in w.active && w.active[n].signature == s;
      }
      if s in SignaturesOf(w.active) {
        var n :| n in w.active && w.active[n].signature == s;
        assert n != name ==> n in v.active && v.active[n].signature == s;
      }
      assert w.active[name].signature == v.entries[name];
    }
  }

  lemma {:induction false} LoadAllAgrees(v: Shelf, names: seq<string>, turn: int)
    requires Agree(v) && forall i :: 0 <= i < |names| ==> names[i] in v.entries
    ensures Agree(LoadAll(v, names, turn))
  {
    hide Agree, LoadOne;
    if names != [] {
      var n := |names| - 1;
      LoadAllAgrees(v, names[..n], turn);
      LoadAgrees(LoadAll(v, names[..n], turn), names[n], turn);
    }
  }

  lemma {:induction false} UnloadAgrees(v: Shelf, name: string)
    requires Agree(v) && name in v.active
    ensures Agree(UnloadOne(v, name))
  {
    var w := UnloadOne(v, name);
    assert v.signatures[name] == v.active[name].signature;
    forall s
      ensures s in w.activeSignatures <==> s in SignaturesOf(w.active)
    {
      if s in SignaturesOf(v.active) {
        var n :| n in v.active && v.active[n].signature == s;
        assert n != name ==> n in w.active && w.active[n].signature == s;
      }
      if s in SignaturesOf(w.active) {
        var n :| n in w.active && w.active[n].signature == s;
        assert n in v.active && v.active[n].signature == s;
      }
    }
  }

  lemma {:induction false} UseAgrees(v: Shelf, name: string, turn: int)
    requires Agree(v)
    ensures Agree(UseOne(v, name, turn))
  {
    var w := UseOne(v, name, turn);
    assert forall n :: n in v.active ==> n in w.active && w.active[n].signature == v.active[n].signature;
    assert w.active.Keys == v.active.Keys;
    SameSignatures(v.active, w.active);
  }

  lemma {:induction false} SameSignatures(one: map<string, Active>, two: map<string, Active>)
    requires one.Keys == two.Keys && forall n :: n in one ==> one[n].signature == two[n].signature
    ensures SignaturesOf(one) == SignaturesOf(two)
  {
    forall s
      ensures s in SignaturesOf(one) <==> s in SignaturesOf(two)
    {
      if s in SignaturesOf(one) {
        var n :| n in one && one[n].signature == s;
        assert n in two && two[n].signature == s;
      }
      if s in SignaturesOf(two) {
        var n :| n in two && two[n].signature == s;
        assert n in one && one[n].signature == s;
      }
    }
  }

  /** A new catalogue entry keeps the copies equal if and only if the registry does not
      already hold a tool of that name. */
  lemma {:induction false} AddAgreesExact(v: Shelf, name: string, signature: string)
    requires Agree(v)
    ensures Agree(AddEntry(v, name, signature)) <==> name in v.entries || name !in v.registered
  {
    var w := AddEntry(v, name, signature);
    if name !in v.entries {
      assert w.registered * w.entries.Keys == v.registered * v.entries.Keys + (v.registered * {name});
      assert name in v.registered <==> name in v.registered * {name};
    }
  }

  /** What binding leaves in the shared state agrees with the loaded names. */
  lemma {:induction false} RestoredState(v: Shelf, turn: int, idleRounds: nat)
    requires StateAgrees(v)
    ensures var w, warm := Restored(v, turn, idleRounds), WarmNames(v, turn, idleRounds);
            && w.loaded == w.signatures.Keys == w.lastUsed.Keys == warm && warm <= v.entries.Keys
            && w.active.Keys == v.active.Keys + warm && w.entries == v.entries && w.registered == v.registered + warm
            && (forall name :: name in warm ==>
                  && name in v.lastUsed && w.active[name] == Active(turn, v.lastUsed[name], v.entries[name])
                  && w.signatures[name] == v.entries[name] && w.lastUsed[name] == v.lastUsed[name])
  {
    hide SignaturesOf;
  }

  lemma {:induction false} RegisteredAfter(registered: set<string>, entries: set<string>, warm: set<string>)
    requires warm <= entries
    ensures (registered + warm) * entries == warm <==> registered * entries <= warm
  {
    assert (registered + warm) * entries == registered * entries + warm;
  }

  /** A fresh store agrees after its first binding, whatever earlier requests left
      in the shared state, if and only if the registry holds no deferred tool but
      those that come back warm. */
  lemma {:induction false} RestoreAgreesExact(v: Shelf, turn: int, idleRounds: nat)
    requires StateAgrees(v) && v.active == map[]
    ensures Agree(Restored(v, turn, idleRounds)) <==> v.registered * v.entries.Keys <= WarmNames(v, turn, idleRounds)
  {
    RestoredState(v, turn, idleRounds);
    RegisteredAfter(v.registered, v.entries.Keys, WarmNames(v, turn, idleRounds));
    var w := Restored(v, turn, idleRounds);
    assert w.activeSignatures == SignaturesOf(w.active);
    hide SignaturesOf, Restored, WarmNames;
  }

  predicate NoneIdle(v: Shelf, turn: int, idleRounds: nat) {
    forall name :: name in v.active ==> turn - v.active[name].lastUsedTurn < idleRounds
  }

  /** Binding any registry to a store that is in agreement keeps the agreement if
      and only if no active tool is past its idle limit, which would stay active
      without being loaded, and the registry holds no deferred tool but active ones. */
  lemma {:induction false} RebindAgreesExact(v: Shelf, registered: set<string>, turn: int, idleRounds: nat)
    requires Agree(v)
    ensures Agree(Restored(v.(registered := registered), turn, idleRounds))
       <==> NoneIdle(v, turn, idleRounds) && registered * v.entries.Keys <= v.active.Keys
  {
    var u := v.(registered := registered);
    var w := Restored(u, turn, idleRounds);
    var warm := WarmNames(u, turn, idleRounds);
    RestoredState(u, turn, idleRounds);
    RegisteredAfter(registered, v.entries.Keys, warm);
    assert w.activeSignatures == SignaturesOf(w.active);
    hide SignaturesOf, Restored;
    WarmUnlessIdle(v, registered, turn, idleRounds);
    hide WarmNames, Warm, NoneIdle;
    assert w.active.Keys == v.active.Keys;
  }

  lemma {:induction false} WarmUnlessIdle(v: Shelf, registered: set<string>, turn: int, idleRounds: nat)
    requires Agree(v)
    ensures WarmNames(v.(registered := registered), turn, idleRounds) <= v.active.Keys
    ensures WarmNames(v.(registered := registered), turn, idleRounds) == v.active.Keys <==> NoneIdle(v, turn, idleRounds)
  {
    hide SignaturesOf;
    var warm := WarmNames(v.(registered := registered), turn, idleRounds);
    forall name | name in v.active
      ensures name in warm <==> turn - v.active[name].lastUsedTurn < idleRounds
    {
    }
    hide WarmNames;
  }

  /*----------------------------- a second store's view -------------------------*/

  /** The store as it looks after somebody else has left this in the shared state. */
  function WithState(v: Shelf, other: Shelf): Shelf {
    v.(loaded := other.loaded, signatures := other.signatures, activeSignatures := other.activeSignatures,
       lastUsed := other.lastUsed)
  }

  /** What a second store over the same state does to the first one: the first keeps
      its agreement if and only if the shared state is left exactly as it was. */
  lemma {:induction false} SharedStateExact(v: Shelf, other: Shelf)
    requires Agree(v)
    ensures Agree(WithState(v, other)) <==> WithState(v, other) == v
  {
    var w := WithState(v, other);
    if Agree(w) {
      assert w.signatures.Keys == v.signatures.Keys && w.lastUsed.Keys == v.lastUsed.Keys;
      forall name | name in v.active
        ensures w.signatures[name] == v.signatures[name] && w.lastUsed[name] == v.lastUsed[name]
      {
      }
      assert w.signatures == v.signatures;
      assert w.lastUsed == v.lastUsed;
    }
  }

  /** A new request's store over the same state, with a catalogue of its own. */
  function SecondStore(v: Shelf, entries: map<string, string>, registered: set<string>): Shelf {
    Shelf(entries, map[], v.loaded, v.signatures, v.activeSignatures, v.lastUsed, registered)
  }

  /** Binding it keeps the first store in agreement if and only if every tool the
      first one uses is still offered and warm for the second. */
  lemma {:induction false} SecondBindingExact(v: Shelf, entries: map<string, string>, registered: set<string>,
          turn: int, idleRounds: nat)
    requires Agree(v)
    ensures var second := SecondStore(v, entries, registered);
            Agree(WithState(v, Restored(second, turn, idleRounds)))
            <==> forall name :: name in v.active ==> Warm(second, name, turn, idleRounds)
  {
    hide SignaturesOf, Warm;
    var second := SecondStore(v, entries, registered);
    var after := Restored(second, turn, idleRounds);
    SharedStateExact(v, after);
    RestoredState(second, turn, idleRounds);
    if forall name :: name in v.active ==> Warm(second, name, turn, idleRounds) {
      assert WarmNames(second, turn, idleRounds) == v.loaded;
      assert after.signatures == v.signatures && after.lastUsed == v.lastUsed;
      AllWarm(v, second, turn, idleRounds);
    } else {
      var name :| name in v.active && !Warm(second, name, turn, idleRounds);
      assert name !in after.loaded;
    }
  }

  lemma {:induction false} AllWarm(v: Shelf, second: Shelf, turn: int, idleRounds: nat)
    requires Agree(v) && second == SecondStore(v, second.entries, second.registered)
    requires forall name :: name in v.active ==> Warm(second, name, turn, idleRounds)
    ensures Restored(second, turn, idleRounds).activeSignatures == v.activeSignatures
  {
    var after := Restored(second, turn, idleRounds);
    assert WarmNames(second, turn, idleRounds) == v.loaded;
    RestoredState(second, turn, idleRounds);
    SameSignatures(after.active, v.active);
  }

  /*-------------------------------------- runs ---------------------------------*/

  /** The operations of a store, and what another store may do to its state. */
  datatype Op =
    | Add(name: string, signature: string)
    | Load(names: seq<string>, turn: int)
    | Use(name: string, turn: int)
    | Unload(name: string)
    | Expire(turn: int)
    | Bind(registered: set<string>, turn: int)
    | Foreign(other: Shelf)

  function UnloadAll(v: Shelf, names: seq<string>): Shelf {
    if names == [] then v else UnloadOne(UnloadAll(v, names[..|names| - 1]), names[|names| - 1])
  }

  ghost predicate Names(names: seq<string>, s: set<string>) {
    && (forall i, j :: 0 <= i < j < |names| ==> names[i] != names[j])
    && (forall name :: name in names <==> name in s)
  }

  /** One operation on a bound store. */
  ghost predicate Steps(v: Shelf, op: Op, idleRounds: nat, w: Shelf) {
    match op
    case Add(name, signature) => w == AddEntry(v, name, signature)
    case Load(names, turn) => (forall i :: 0 <= i < |names| ==> names[i] in v.entries) && w == LoadAll(v, names, turn)
    case Use(name, turn) => w == UseOne(v, name, turn)
    case Unload(name) => w == if name in v.active then UnloadOne(v, name) else v
    case Expire(turn) => exists names :: Names(names, IdleNames(v, turn, idleRounds)) && w == UnloadAll(v, names)
    case Bind(registered, turn) => w == Restored(v.(registered := registered), turn, idleRounds)
    case Foreign(other) => w == WithState(v, other)
  }

  /** What an operation must respect to keep the copies equal. */
  predicate Respects(v: Shelf, op: Op, idleRounds: nat) {
    match op
    case Add(name, _) => name in v.entries || name !in v.registered
    case Load(_, _) => true
    case Use(_, _) => true
    case Unload(_) => true
    case Expire(_) => true
    case Bind(registered, turn) => NoneIdle(v, turn, idleRounds) && registered * v.entries.Keys <= v.active.Keys
    case Foreign(other) => WithState(v, other) == v
  }

  lemma {:induction false} UnloadActive(v: Shelf, name: string)
    ensures UnloadOne(v, name).active == v.active - {name}
  {
  }

  lemma {:induction false} UnloadAllActive(v: Shelf, names: seq<string>)
    ensures UnloadAll(v, names).active == v.active - (set name | name in names)
  {
    hide UnloadOne;
    if names != [] {
      var n := |names| - 1;
      UnloadAllActive(v, names[..n]);
      assert names == names[..n] + [names[n]];
      UnloadActive(UnloadAll(v, names[..n]), names[n]);
    }
  }

  lemma {:induction false} UnloadAllAgrees(v: Shelf, names: seq<string>)
    requires Agree(v) && (forall i :: 0 <= i < |names| ==> names[i] in v.active)
    requires forall i, j :: 0 <= i < j < |names| ==> names[i] != names[j]
    ensures Agree(UnloadAll(v, names))
  {
    hide Agree, UnloadOne;
    if names != [] {
      var n := |names| - 1;
      UnloadAllAgrees(v, names[..n]);
      UnloadAllActive(v, names[..n]);
      assert names[n] !in names[..n];
      UnloadAgrees(UnloadAll(v, names[..n]), names[n]);
    }
  }

  /** A step from agreement ends in agreement if and only if it respects that. */
  lemma {:induction false} StepAgreesExact(v: Shelf, op: Op, idleRounds: nat, w: Shelf)
    requires Agree(v) && Steps(v, op, idleRounds, w)
    ensures Agree(w) <==> Respects(v, op, idleRounds)
  {
    hide Agree, AddEntry, LoadOne, UseOne, UnloadOne, Restored, WithState;
    match op
    case Add(name, signature) => AddAgreesExact(v, name, signature);
    case Load(names, turn) => LoadAllAgrees(v, names, turn);
    case Use(name, turn) => UseAgrees(v, name, turn);
    case Unload(name) => {
      if name in v.active {
        UnloadAgrees(v, name);
      }
    }
    case Expire(turn) => {
      var names :| Names(names, IdleNames(v, turn, idleRounds)) && w == UnloadAll(v, names);
      assert forall i :: 0 <= i < |names| ==> names[i] in names;
      UnloadAllAgrees(v, names);
    }
    case Bind(registered, turn) => RebindAgreesExact(v, registered, turn, idleRounds);
    case Foreign(other) => SharedStateExact(v, other);
  }

  /*--------------------------- steps of a second store -------------------------*/

  /** Two stores over one state. */
  predicate SameState(v: Shelf, second: Shelf) {
    && second.loaded == v.loaded && second.signatures == v.signatures
    && second.activeSignatures == v.activeSignatures && second.lastUsed == v.lastUsed
  }

  /** What a bound store may do without disturbing another one over its state: add
      entries, load what was loaded this very turn, use a tool that was not used
      earlier than that, and unload or drop nothing. */
  predicate Spares(second: Shelf, op: Op, idleRounds: nat) {
    match op
    case Add(_, _) => true
    case Load(names, turn) => forall name :: name in names ==> name in second.active && second.active[name].lastUsedTurn == turn
    case Use(name, turn) => name in second.active ==> turn <= second.active[name].lastUsedTurn
    case Unload(name) => name !in second.active
    case Expire(turn) => IdleNames(second, turn, idleRounds) == {}
    case Bind(_, turn) => NoneIdle(second, turn, idleRounds)
    case Foreign(other) => SameState(second, other)
  }

  /** While both stores are in agreement, a step of the second leaves the first in
      agreement if and only if it is such a step. */
  lemma {:induction false} SecondStepExact(v: Shelf, second: Shelf, op: Op, idleRounds: nat, after: Shelf)
    requires Agree(v) && Agree(second) && SameState(v, second) && Steps(second, op, idleRounds, after)
    ensures Agree(WithState(v, after)) <==> Spares(second, op, idleRounds)
  {
    hide Agree, AddEntry, LoadAll, UseOne, UnloadOne, UnloadAll, Restored, IdleNames, NoneIdle;
    SharedStateExact(v, after);
    match op
    case Add(name, signature) => AddIsLocal(second, name, signature);
    case Load(names, turn) => LoadSparesExact(second, names, turn);
    case Use(name, turn) => UseSparesExact(second, name, turn);
    case Unload(name) => UnloadDisturbs(second, name);
    case Expire(turn) => {
      var names :| Names(names, IdleNames(second, turn, idleRounds)) && after == UnloadAll(second, names);
      ExpireSparesExact(second, names, turn, idleRounds);
    }
    case Bind(registered, turn) => BindSparesExact(second, registered, turn, idleRounds);
    case Foreign(other) =>
  }

  lemma {:induction false} AddIsLocal(second: Shelf, name: string, signature: string)
    ensures SameState(second, AddEntry(second, name, signature))
  {
  }

  lemma {:induction false} LoadedNow(v: Shelf, names: seq<string>, turn: int)
    requires forall i :: 0 <= i < |names| ==> names[i] in v.entries
    ensures var w := LoadAll(v, names, turn);
            forall name :: name in names ==> name in w.lastUsed && w.lastUsed[name] == turn
  {
    if names != [] {
      var n := |names| - 1;
      LoadedNow(v, names[..n], turn);
      assert names == names[..n] + [names[n]];
    }
  }

  lemma {:induction false} LoadedAgain(v: Shelf, name: string, turn: int)
    requires Agree(v) && name in v.active && v.active[name].lastUsedTurn == turn
    ensures SameState(v, LoadOne(v, name, turn)) && LoadOne(v, name, turn).active.Keys == v.active.Keys
    ensures forall n :: n in v.active ==> LoadOne(v, name, turn).active[n].lastUsedTurn == v.active[n].lastUsedTurn
  {
    assert v.active[name].signature == v.entries[name];
    assert v.entries[name] in SignaturesOf(v.active);
  }

  lemma {:induction false} AllLoadedAgain(v: Shelf, names: seq<string>, turn: int)
    requires Agree(v) && forall i :: 0 <= i < |names| ==> names[i] in v.entries
    requires forall name :: name in names ==> name in v.active && v.active[name].lastUsedTurn == turn
    ensures var w := LoadAll(v, names, turn);
            && SameState(v, w) && w.active.Keys == v.active.Keys
            && forall n :: n in v.active ==> w.active[n].lastUsedTurn == v.active[n].lastUsedTurn
  {
    hide Agree, LoadOne, SameState;
    if names == [] {
      SameStateAs(v, v, v);
    } else {
      var n := |names| - 1;
      assert names == names[..n] + [names[n]];
      AllLoadedAgain(v, names[..n], turn);
      LoadAllAgrees(v, names[..n], turn);
      var u := LoadAll(v, names[..n], turn);
      LoadedAgain(u, names[n], turn);
      SameStateAs(v, u, LoadOne(u, names[n], turn));
    }
  }

  lemma {:induction false} SameStateAs(u: Shelf, v: Shelf, w: Shelf)
    ensures SameState(v, v) && (SameState(u, v) && SameState(v, w) ==> SameState(u, w))
  {
  }

  lemma {:induction false} LoadSparesExact(v: Shelf, names: seq<string>, turn: int)
    requires Agree(v) && forall i :: 0 <= i < |names| ==> names[i] in v.entries
    ensures SameState(v, LoadAll(v, names, turn))
       <==> forall name :: name in names ==> name in v.active && v.active[name].lastUsedTurn == turn
  {
    hide SignaturesOf, LoadAll;
    LoadedNow(v, names, turn);
    if forall name :: name in names ==> name in v.active && v.active[name].lastUsedTurn == turn {
      AllLoadedAgain(v, names, turn);
    }
  }

  lemma {:induction false} UseSparesExact(v: Shelf, name: string, turn: int)
    requires Agree(v)
    ensures SameState(v, UseOne(v, name, turn)) <==> (name in v.active ==> turn <= v.active[name].lastUsedTurn)
  {
    hide SignaturesOf;
    if name in v.active {
      var w := UseOne(v, name, turn);
      assert v.lastUsed[name] == v.active[name].lastUsedTurn;
      if turn > v.active[name].lastUsedTurn {
        assert w.lastUsed[name] == turn;
      } else {
        assert w.lastUsed == v.lastUsed;
      }
    }
  }

  lemma {:induction false} UnloadDisturbs(v: Shelf, name: string)
    requires Agree(v)
    ensures SameState(v, if name in v.active then UnloadOne(v, name) else v) <==> name !in v.active
  {
    hide SignaturesOf;
    assert name in v.active ==> name in v.loaded && name !in UnloadOne(v, name).loaded;
  }

  lemma {:induction false} UnloadAllLoaded(v: Shelf, names: seq<string>)
    ensures forall name :: name in names ==> name !in UnloadAll(v, names).loaded
  {
    hide SignaturesOf;
    if names != [] {
      var n := |names| - 1;
      UnloadAllLoaded(v, names[..n]);
      assert names == names[..n] + [names[n]];
    }
  }

  lemma {:induction false} ExpireSparesExact(v: Shelf, names: seq<string>, turn: int, idleRounds: nat)
    requires Agree(v) && Names(names, IdleNames(v, turn, idleRounds))
    ensures SameState(v, UnloadAll(v, names)) <==> IdleNames(v, turn, idleRounds) == {}
  {
    hide SignaturesOf, Idle;
    UnloadAllLoaded(v, names);
    if names == [] {
      assert UnloadAll(v, names) == v;
    } else {
      assert names[0] in names && names[0] in v.loaded;
    }
  }

  lemma {:induction false} BindSparesExact(v: Shelf, registered: set<string>, turn: int, idleRounds: nat)
    requires Agree(v)
    ensures SameState(v, Restored(v.(registered := registered), turn, idleRounds)) <==> NoneIdle(v, turn, idleRounds)
  {
    var u := v.(registered := registered);
    var w := Restored(u, turn, idleRounds);
    RestoredState(u, turn, idleRounds);
    WarmUnlessIdle(v, registered, turn, idleRounds);
    assert w.activeSignatures == SignaturesOf(w.active);
    hide Restored, WarmNames, NoneIdle;
    if w.loaded == v.loaded {
      SameSignatures(w.active, v.active);
      hide SignaturesOf;
      assert w.signatures == v.signatures;
      assert w.lastUsed == v.lastUsed;
    }
  }

  /** A run of steps that respect the agreement. */
  ghost predicate Runs(v: Shelf, ops: seq<Op>, idleRounds: nat, w: Shelf)
    decreases |ops|
  {
    if ops == [] then w == v
    else exists u :: Steps(v, ops[0], idleRounds, u) && Respects(v, ops[0], idleRounds) && Runs(u, ops[1..], idleRounds, w)
  }

  /** The copies of a store agree throughout a run over a state of its own: bound to
      a registry with no deferred tool but warm ones, it may add tools the registry
      does not have, load, use, unload and expire, and be bound again while nothing
      is idle. A second store over the same state must leave it as it was. */
  lemma {:induction false} ReachableAgrees(v: Shelf, turn: int, idleRounds: nat, ops: seq<Op>, w: Shelf)
    requires StateAgrees(v) && v.active == map[]
    requires v.registered * v.entries.Keys <= WarmNames(v, turn, idleRounds)
    requires Runs(Restored(v, turn, idleRounds), ops, idleRounds, w)
    ensures Agree(w)
  {
    RestoreAgreesExact(v, turn, idleRounds);
    RunAgrees(Restored(v, turn, idleRounds), ops, idleRounds, w);
  }

  lemma {:induction false} RunAgrees(v: Shelf, ops: seq<Op>, idleRounds: nat, w: Shelf)
    requires Agree(v) && Runs(v, ops, idleRounds, w)
    ensures Agree(w)
    decreases |ops|
  {
    hide Agree, Steps, Respects;
    if ops != [] {
      var u :| Steps(v, ops[0], idleRounds, u) && Respects(v, ops[0], idleRounds) && Runs(u, ops[1..], idleRounds, w);
      StepAgreesExact(v, ops[0], idleRounds, u);
      RunAgrees(u, ops[1..], idleRounds, w);
    }
  }

  /*--------------------------------- broken by one call ------------------------*/

  /** A store with one catalogue entry and an empty registry. */
  const FRESH := Shelf(map["t" := "s"], map[], {}, map[], {}, map[], {})

  /** The same after its only tool has been loaded in turn 0. */
  function OneLoaded(): Shelf {
    LoadOne(FRESH, "t", 0)
  }

  lemma {:induction false} OneLoadedAgrees()
    ensures Agree(FRESH) && Agree(OneLoaded())
    ensures OneLoaded().active == map["t" := Active(0, 0, "s")] && OneLoaded().entries == map["t" := "s"]
  {
    assert SignaturesOf(FRESH.active) == {};
    assert Agree(FRESH);
    LoadAgrees(FRESH, "t", 0);
  }

  /** Adding a tool whose name the registry already has. */
  lemma {:induction false} AddBreaks()
    ensures var v := FRESH.(registered := {"u"}); Agree(v) && !Agree(AddEntry(v, "u", "s"))
  {
    var v := FRESH.(registered := {"u"});
    assert SignaturesOf(v.active) == {};
    assert v.registered * v.entries.Keys == {};
    AddAgreesExact(v, "u", "s");
  }

  /** Binding again after six idle rounds, or binding a registry that already has a
      tool of the catalogue. */
  lemma {:induction false} RebindBreaks()
    ensures Agree(OneLoaded()) && !Agree(Restored(OneLoaded().(registered := {}), 6, DEFAULT_MCP_TOOL_IDLE_ROUNDS))
    ensures Agree(FRESH) && !Agree(Restored(FRESH.(registered := {"t"}), 0, DEFAULT_MCP_TOOL_IDLE_ROUNDS))
  {
    OneLoadedAgrees();
    hide Agree, Restored;
    RebindAgreesExact(OneLoaded(), {}, 6, DEFAULT_MCP_TOOL_IDLE_ROUNDS);
    assert "t" in OneLoaded().active;
    RebindAgreesExact(FRESH, {"t"}, 0, DEFAULT_MCP_TOOL_IDLE_ROUNDS);
    assert "t" in {"t"} * FRESH.entries.Keys;
  }

  /** Binding a second store whose catalogue lacks the tool that the first one uses. */
  lemma {:induction false} SecondStoreBreaks()
    ensures var second := SecondStore(OneLoaded(), map[], {});
            Agree(OneLoaded()) && !Agree(WithState(OneLoaded(), Restored(second, 1, DEFAULT_MCP_TOOL_IDLE_ROUNDS)))
  {
    OneLoadedAgrees();
    hide Agree, Restored, WithState;
    assert "t" in OneLoaded().active;
    SecondBindingExact(OneLoaded(), map[], {}, 1, DEFAULT_MCP_TOOL_IDLE_ROUNDS);
  }

  /*------------------------------------ the store ------------------------------*/

  class ToolRegistry {
    var names: set<string>

    constructor (names: set<string>)
      ensures this.names == names
    {
      this.names := names;
    }

    method Register(name: string)
      modifies this
      ensures names == old(names) + {name}
    {
      names := names + {name};
    }

    method Unregister(name: string)
      modifies this
      ensures names == old(names) - {name}
    {
      names := names - {name};
    }
  }

  /** Task-scoped state, shared by the stores of successive requests. */
  class DeferredToolState {
    var loadedNames: set<string>
    var loadedServerSignatures: map<string, string>
    var activeServerSignatures: set<string>
    var lastUsedTurns: map<string, int>
    var clock: int
    var requestStarted: bool

    constructor ()
      ensures loadedNames == {} && loadedServerSignatures == map[] && lastUsedTurns == map[] && activeServerSignatures == {}
      ensures clock == 0 && !requestStarted
    {
      loadedNames, loadedServerSignatures, activeServerSignatures, lastUsedTurns := {}, map[], {}, map[];
      clock, requestStarted := 0, false;
    }
  }

  class McpDeferredToolStore {
    const idleRounds: nat
    const state: DeferredToolState
    const requestTurnBase: int
    var entries: map<string, string>
    var active: map<string, Active>
    var registry: ToolRegistry?
    var currentTurn: int
    var revision: nat

    /** A new request starts one turn after everything earlier requests have seen. */
    constructor (state: DeferredToolState, idleRounds: nat)
      requires idleRounds >= 1
      modifies state
      ensures this.state == state && this.idleRounds == idleRounds && entries == map[] && active == map[] && registry == null
      ensures currentTurn == requestTurnBase == if old(state.requestStarted) then state.clock + 1 else state.clock
      ensures state.requestStarted && state.clock == old(state.clock) && state.loadedNames == old(state.loadedNames)
      ensures state.loadedServerSignatures == old(state.loadedServerSignatures) && state.lastUsedTurns == old(state.lastUsedTurns)
    {
      this.state, this.idleRounds := state, idleRounds;
      entries, active, registry, revision := map[], map[], null, 0;
      var base := if state.requestStarted then state.clock + 1 else state.clock;
      requestTurnBase, currentTurn := base, base;
      new;
      state.requestStarted := true;
    }

    ghost function View(): Shelf
      reads this, state, registry
    {
      Shelf(entries, active, state.loadedNames, state.loadedServerSignatures, state.activeServerSignatures,
            state.lastUsedTurns, if registry == null then {} else registry.names)
    }

    method Add(name: string, signature: string) returns (added: bool)
      modifies this`entries, this`revision
      ensures added == (name !in old(entries)) && View() == AddEntry(old(View()), name, signature)
      ensures old(Agree(View())) ==> (Agree(View()) <==> !added || name !in View().registered)
    {
      if Agree(View()) {
        AddAgreesExact(View(), name, signature);
      }
      added := name !in entries;
      if added {
        entries := entries[name := signature];
        revision := revision + 1;
      }
    }

    method BeginTurn(turn: int)
      modifies this`currentTurn, state`clock
      ensures currentTurn == Max(old(currentTurn), requestTurnBase + Max(0, turn)) && View() == old(View())
      ensures state.clock == Max(old(state.clock), currentTurn)
    {
      currentTurn := Max(currentTurn, requestTurnBase + Max(0, turn));
      state.clock := Max(state.clock, currentTurn);
    }

    method MarkUsed(name: string, turn: int)
      modifies this`active, this`currentTurn, state`clock, state`lastUsedTurns
      ensures name !in old(active) ==> View() == old(View()) && currentTurn == old(currentTurn)
      ensures name in old(active) ==> currentTurn == Max(old(currentTurn), requestTurnBase + Max(0, turn))
                                      && View() == UseOne(old(View()), name, currentTurn)
      ensures old(Agree(View())) ==> Agree(View())
    {
      hide Agree;
      if name !in active {
        return;
      }
      BeginTurn(turn);
      if Agree(View()) {
        UseAgrees(View(), name, currentTurn);
      }
      var last := Max(active[name].lastUsedTurn, currentTurn);
      active := active[name := active[name].(lastUsedTurn := last)];
      state.lastUsedTurns := state.lastUsedTurns[name := last];
    }

    method UnloadTool(name: string)
      modifies this`active, this`revision, state, registry
      ensures View() == UnloadOne(old(View()), name) && registry == old(registry)
      ensures state.clock == old(state.clock)
    {
      active := active - {name};
      state.loadedNames := state.loadedNames - {name};
      var signature := if name in state.loadedServerSignatures then state.loadedServerSignatures[name] else "";
      state.loadedServerSignatures := state.loadedServerSignatures - {name};
      state.lastUsedTurns := state.lastUsedTurns - {name};
      if signature !in SignaturesOf(active) {
        state.activeServerSignatures := state.activeServerSignatures - {signature};
      }
      if registry != null && name in registry.names {
        registry.Unregister(name);
      }
      revision := revision + 1;
    }

    /** unload: false for a tool that is not active. */
    method Unload(name: string) returns (ok: bool)
      modifies this`active, this`revision, state, registry
      ensures ok == (name in old(active)) && registry == old(registry)
      ensures View() == if ok then UnloadOne(old(View()), name) else old(View())
      ensures old(Agree(View())) ==> Agree(View())
    {
      hide Agree, UnloadOne;
      ok := name in active;
      if ok {
        if Agree(View()) {
          UnloadAgrees(View(), name);
        }
        UnloadTool(name);
      }
    }

    /** Unloads exactly the tools that have been idle for the configured rounds; an
        unbound store does nothing. */
    method ExpireUnused(turn: int) returns (expired: seq<string>)
      modifies this`active, this`currentTurn, this`revision, state, registry
      ensures old(registry) == null ==> expired == [] && View() == old(View()) && currentTurn == old(currentTurn)
      ensures old(registry) != null ==>
                && currentTurn == Max(old(currentTurn), requestTurnBase + Max(0, turn))
                && Names(expired, IdleNames(old(View()), currentTurn, idleRounds))
                && View() == UnloadAll(old(View()), expired)
                && active == old(active) - IdleNames(old(View()), currentTurn, idleRounds)
      ensures registry == old(registry) && (old(Agree(View())) ==> Agree(View()))
    {
      hide Agree, UnloadOne;
      if registry == null {
        return [];
      }
      BeginTurn(turn);
      ghost var before := View();
      ghost var idle := IdleNames(before, currentTurn, idleRounds);
      expired := InSomeOrder(set name | name in active && Idle(active[name], currentTurn, idleRounds));
      assert forall i :: 0 <= i < |expired| ==> expired[i] in expired;
      for i := 0 to |expired|
        invariant registry != null && registry == old(registry) && View() == UnloadAll(before, expired[..i])
        invariant currentTurn == Max(old(currentTurn), requestTurnBase + Max(0, turn))
      {
        assert expired[..i + 1][..i] == expired[..i];
        UnloadTool(expired[i]);
      }
      assert expired[..|expired|] == expired;
      UnloadAllActive(before, expired);
      assert (set name | name in expired) == idle;
      if Agree(before) {
        UnloadAllAgrees(before, expired);
      }
    }

    method InSomeOrder(names: set<string>) returns (order: seq<string>)
      ensures Names(order, names)
    {
      order := [];
      var todo := names;
      while todo != {}
        invariant todo <= names && Names(order, names - todo)
      {
        var name :| name in todo;
        todo := todo - {name};
        order := order + [name];
      }
    }

    /** Loads the matched entries, which are catalogue entries that are not active;
        an unbound store refuses. */
    method Load(names: seq<string>) returns (ok: bool)
      requires forall i :: 0 <= i < |names| ==> names[i] in entries && names[i] !in active
      modifies this`active, this`revision, state, registry
      ensures ok == (old(registry) != null) && registry == old(registry)
      ensures View() == if ok then LoadAll(old(View()), names, currentTurn) else old(View())
      ensures old(Agree(View())) ==> Agree(View())
    {
      hide Agree, LoadOne;
      if registry == null {
        return false;
      }
      if Agree(View()) {
        LoadAllAgrees(View(), names, currentTurn);
      }
      for i := 0 to |names|
        invariant registry != null && registry == old(registry) && entries == old(entries)
        invariant View() == LoadAll(old(View()), names[..i], currentTurn)
      {
        assert names[..i + 1][..i] == names[..i];
        LoadEntry(names[i]);
      }
      assert names[..|names|] == names;
      if names != [] {
        revision := revision + 1;
      }
      ok := true;
    }

    method LoadEntry(name: string)
      requires registry != null && name in entries
      modifies this`active, state, registry
      ensures View() == LoadOne(old(View()), name, currentTurn)
    {
      if name !in registry.names {
        registry.Register(name);
      }
      active := active[name := Active(currentTurn, currentTurn, entries[name])];
      state.loadedNames := state.loadedNames + {name};
      state.loadedServerSignatures := state.loadedServerSignatures[name := entries[name]];
      state.activeServerSignatures := state.activeServerSignatures + {entries[name]};
      state.lastUsedTurns := state.lastUsedTurns[name := currentTurn];
    }

    /** Rebinds what an earlier request had loaded and that is still warm. */
    method BindRegistry(newRegistry: ToolRegistry)
      modifies this`registry, this`active, state, newRegistry
      ensures registry == newRegistry
      ensures View() == Restored(old(View()).(registered := old(newRegistry.names)), currentTurn, idleRounds)
      ensures old(StateAgrees(View())) && old(active) == map[] ==>
                (Agree(View()) <==> old(newRegistry.names) * entries.Keys <= WarmNames(old(View()), currentTurn, idleRounds))
      ensures old(Agree(View())) ==>
                (Agree(View()) <==> NoneIdle(old(View()), currentTurn, idleRounds)
                                    && old(newRegistry.names) * entries.Keys <= old(active).Keys)
    {
      hide Agree, Rebinding, RebindStep, Restored;
      ghost var was := View();
      registry := newRegistry;
      ghost var before := View();
      BindingExact(was, before, currentTurn, idleRounds);
      var todo := state.loadedNames;
      NothingRebound(before, currentTurn, idleRounds);
      while todo != {}
        invariant registry == newRegistry && todo <= before.loaded
        invariant Rebinding(before, View(), todo, currentTurn, idleRounds)
        decreases |todo|
      {
        var name :| name in todo;
        RebindKeeps(before, View(), todo, name, currentTurn, idleRounds);
        todo := todo - {name};
        RebindOne(name);
      }
      AllRebound(before, View(), currentTurn, idleRounds);
      state.activeServerSignatures := SignaturesOf(active);
    }

    lemma {:induction false} BindingExact(was: Shelf, before: Shelf, turn: int, idleRounds: nat)
      requires before == was.(registered := before.registered)
      ensures StateAgrees(was) && was.active == map[] ==>
                (Agree(Restored(before, turn, idleRounds))
                 <==> before.registered * was.entries.Keys <= WarmNames(was, turn, idleRounds))
      ensures Agree(was) ==>
                (Agree(Restored(before, turn, idleRounds))
                 <==> NoneIdle(was, turn, idleRounds) && before.registered * was.entries.Keys <= was.active.Keys)
    {
      hide Agree, Restored;
      if StateAgrees(was) && was.active == map[] {
        RestoreAgreesExact(before, turn, idleRounds);
      }
      if Agree(was) {
        RebindAgreesExact(was, before.registered, turn, idleRounds);
      }
    }

    method RebindOne(name: string)
      requires registry != null
      modifies this`active, state, registry
      ensures View() == RebindStep(old(View()), name, currentTurn, idleRounds) && registry == old(registry)
    {
      var signature := if name in state.loadedServerSignatures then state.loadedServerSignatures[name]
                       else if name in entries then entries[name] else "";
      var lastUsed := if name in state.lastUsedTurns then state.lastUsedTurns[name] else currentTurn;
      if name !in entries || signature != entries[name] || currentTurn - lastUsed >= idleRounds {
        state.loadedNames := state.loadedNames - {name};
        state.loadedServerSignatures := state.loadedServerSignatures - {name};
        state.lastUsedTurns := state.lastUsedTurns - {name};
      } else {
        if name !in registry.names {
          registry.Register(name);
        }
        active := active[name := Active(currentTurn, lastUsed, entries[name])];
        state.activeServerSignatures := state.activeServerSignatures + {entries[name]};
      }
    }
  }
}
