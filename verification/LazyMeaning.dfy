/** Which tools are loaded after each operation of a deferred tool store, said of turns and
    signatures (agent/app/mcp/lazy_tools.py). */
module LazyMeaning {
  import opened LazyTools

  /** Nothing about the tool differs. */
  ghost predicate SameTool(v: Shelf, w: Shelf, name: string) {
    && (name in w.active <==> name in v.active) && (name in v.active ==> w.active[name] == v.active[name])
    && (name in w.loaded <==> name in v.loaded)
    && (name in w.signatures <==> name in v.signatures)
    && (name in v.signatures ==> w.signatures[name] == v.signatures[name])
    && (name in w.lastUsed <==> name in v.lastUsed) && (name in v.lastUsed ==> w.lastUsed[name] == v.lastUsed[name])
    && (name in w.registered <==> name in v.registered)
  }

  /** The tool is loaded since this turn and was last used in that one. */
  ghost predicate InUse(w: Shelf, name: string, since: int, last: int) {
    && name in w.entries && name in w.active && w.active[name] == Active(since, last, w.entries[name])
    && name in w.loaded && name in w.registered
    && name in w.signatures && w.signatures[name] == w.entries[name]
    && name in w.lastUsed && w.lastUsed[name] == last
  }

  /** No copy names the tool. */
  ghost predicate Gone(w: Shelf, name: string) {
    name !in w.active && name !in w.loaded && name !in w.signatures && name !in w.lastUsed && name !in w.registered
  }

  /** Loading makes the named tools loaded and used this very turn, and leaves the others. */
  lemma {:induction false} LoadExact(v: Shelf, names: seq<string>, turn: int)
    requires forall i :: 0 <= i < |names| ==> names[i] in v.entries
    ensures var w := LoadAll(v, names, turn);
            && w.entries == v.entries
            && (forall name :: name in names ==> InUse(w, name, turn, turn))
            && (forall name :: name !in names ==> SameTool(v, w, name))
            && forall s :: s in w.activeSignatures <==>
                 s in v.activeSignatures || exists name :: name in names && name in v.entries && v.entries[name] == s
  {
    if names != [] {
      var n := |names| - 1;
      var front, last := names[..n], names[n];
      assert names == front + [last];
      LoadExact(v, front, turn);
      LoadOneExact(LoadAll(v, front, turn), last, turn);
      hide LoadOne, LoadAll, InUse, SameTool;
      var u, w := LoadAll(v, front, turn), LoadOne(LoadAll(v, front, turn), last, turn);
      assert LoadAll(v, names, turn) == w by { LoadsNext(v, names, turn); }
      forall name
        ensures name in names ==> InUse(w, name, turn, turn)
        ensures name !in names ==> SameTool(v, w, name)
      {
        if name != last {
          CarriedOver(v, u, w, name, turn, turn);
        }
      }
    }
  }

  lemma {:induction false} LoadsNext(v: Shelf, names: seq<string>, turn: int)
    requires names != [] && forall i :: 0 <= i < |names| ==> names[i] in v.entries
    ensures LoadAll(v, names, turn) == LoadOne(LoadAll(v, names[..|names| - 1], turn), names[|names| - 1], turn)
  {
  }

  lemma {:induction false} LoadOneExact(v: Shelf, name: string, turn: int)
    requires name in v.entries
    ensures var w := LoadOne(v, name, turn);
            && w.entries == v.entries && InUse(w, name, turn, turn)
            && (forall other :: other != name ==> SameTool(v, w, other))
            && w.activeSignatures == v.activeSignatures + {v.entries[name]}
  {
  }

  lemma {:induction false} CarriedOver(v: Shelf, u: Shelf, w: Shelf, name: string, since: int, last: int)
    requires SameTool(u, w, name) && w.entries == u.entries
    ensures InUse(u, name, since, last) ==> InUse(w, name, since, last)
    ensures SameTool(v, u, name) ==> SameTool(v, w, name)
    ensures Gone(u, name) ==> Gone(w, name)
  {
  }

  /** Using an active tool moves its last turn forward and nothing else. */
  lemma {:induction false} UseExact(v: Shelf, name: string, turn: int)
    ensures var w := UseOne(v, name, turn);
            && (name !in v.active ==> w == v)
            && (name in v.active ==>
                  var last := v.active[name].lastUsedTurn;
                  && w == v.(active := w.active, lastUsed := w.lastUsed)
                  && w.active == v.active[name := v.active[name].(lastUsedTurn := if last < turn then turn else last)]
                  && w.lastUsed == v.lastUsed[name := if last < turn then turn else last])
  {
  }

  lemma {:induction false} UnloadOneExact(v: Shelf, name: string)
    ensures var w := UnloadOne(v, name);
            && w.entries == v.entries && Gone(w, name) && forall other :: other != name ==> SameTool(v, w, other)
  {
    hide SignaturesOf;
  }

  lemma {:induction false} UnloadExact(v: Shelf, names: seq<string>)
    ensures var w := UnloadAll(v, names);
            && w.entries == v.entries
            && (forall name :: name in names ==> Gone(w, name)) && (forall name :: name !in names ==> SameTool(v, w, name))
  {
    if names != [] {
      var n := |names| - 1;
      var front, last := names[..n], names[n];
      assert names == front + [last];
      UnloadExact(v, front);
      var u, w := UnloadAll(v, front), UnloadOne(UnloadAll(v, front), last);
      assert UnloadAll(v, names) == w;
      UnloadOneExact(u, last);
      hide UnloadOne, UnloadAll, Gone, SameTool;
      forall name
        ensures name in names ==> Gone(w, name)
        ensures name !in names ==> SameTool(v, w, name)
      {
        if name != last {
          CarriedOver(v, u, w, name, 0, 0);
        }
      }
    }
  }

  /** Expiring unloads exactly the active tools that were loaded in an earlier turn and have
      not been used for idleRounds turns, and leaves every other tool as it was. */
  lemma {:induction false} ExpireExact(v: Shelf, expired: seq<string>, turn: int, idleRounds: nat)
    requires Names(expired, IdleNames(v, turn, idleRounds))
    ensures var w := UnloadAll(v, expired);
            forall name ::
              if name in v.active && v.active[name].loadedTurn < turn && v.active[name].lastUsedTurn + idleRounds <= turn
              then Gone(w, name) else SameTool(v, w, name)
  {
    UnloadExact(v, expired);
    hide UnloadAll, Gone, SameTool;
  }

  /** The tool is offered by the same server as when it was loaded, and has been used within
      the last idleRounds turns; what was not recorded counts as the same and as this turn. */
  ghost predicate ComesBack(v: Shelf, name: string, turn: int, idleRounds: nat) {
    && name in v.loaded && name in v.entries
    && (name in v.signatures ==> v.signatures[name] == v.entries[name])
    && (name in v.lastUsed ==> turn < v.lastUsed[name] + idleRounds)
  }

  /** Binding a registry makes exactly those of the loaded tools active again, loaded this
      turn and with the turn they were last used in, and drops the others from the state;
      what was active and is not loaded stays active. */
  lemma {:induction false} BindExact(v: Shelf, turn: int, idleRounds: nat)
    requires idleRounds >= 1
    ensures var w := Restored(v, turn, idleRounds);
            && w.entries == v.entries
            && (forall name :: name in w.loaded <==> ComesBack(v, name, turn, idleRounds))
            && (forall name :: name in w.loaded ==>
                  && name in w.registered && name in w.active
                  && w.active[name] == Active(turn, if name in v.lastUsed then v.lastUsed[name] else turn, v.entries[name]))
            && (forall name :: name !in w.loaded ==>
                  && (name in w.active <==> name in v.active) && (name in v.active ==> w.active[name] == v.active[name])
                  && (name in w.registered <==> name in v.registered))
            && (forall name :: name in v.loaded && name !in w.loaded ==> name !in w.signatures && name !in w.lastUsed)
            && (forall name :: name !in v.loaded || name in w.loaded ==> SameRecords(v, w, name))
            && (forall s :: s in w.activeSignatures <==> exists name :: name in w.active && w.active[name].signature == s)
  {
    var warm := WarmNames(v, turn, idleRounds);
    forall name
      ensures name in warm <==> ComesBack(v, name, turn, idleRounds)
    {
    }
    hide WarmNames, Warm, ComesBack;
  }

  ghost predicate SameRecords(v: Shelf, w: Shelf, name: string) {
    && (name in w.signatures <==> name in v.signatures) && (name in w.lastUsed <==> name in v.lastUsed)
    && (name in v.signatures ==> w.signatures[name] == v.signatures[name])
    && (name in v.lastUsed ==> w.lastUsed[name] == v.lastUsed[name])
  }

  /** A catalogue entry is added once; the first signature stays. */
  lemma {:induction false} AddExact(v: Shelf, name: string, signature: string)
    ensures var w := AddEntry(v, name, signature);
            && w == v.(entries := w.entries) && w.entries.Keys == v.entries.Keys + {name}
            && (forall other :: other in v.entries ==> w.entries[other] == v.entries[other])
            && (name !in v.entries ==> w.entries[name] == signature)
  {
  }
}
