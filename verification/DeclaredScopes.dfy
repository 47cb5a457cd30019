/** Reading declared write scopes against the disk
    (agent/app/execution/write_intents.py, declared_write_scopes). */
module DeclaredScopes {
  import opened Ordering
  import opened Text
  import opened Scopes

  /** What reading a scope sees of the disk: the resolved workspace, where a
      written path leads from it, and the baseline hash of a file. */
  datatype Disk = Disk(root: string, resolve: string -> string, digest: string -> string)

  predicate EndsWith(s: string, suffix: string) {
    |s| >= |suffix| && s[|s| - |suffix|..] == suffix
  }

  predicate IsTree(raw: string) {
    EndsWith(raw, "/**") || EndsWith(raw, "\\**")
  }

  function PathPart(raw: string): string {
    if IsTree(raw) then raw[..|raw| - 3] else raw
  }

  predicate HasPattern(path: string) {
    exists c :: c in path && c in {'*', '?', '[', ']'}
  }

  function BaselineOf(disk: Disk, s: WriteScope): string {
    if s.recursive then "" else disk.digest(s.path)
  }

  /** One declared value: a plain path or a directory with a trailing pattern,
      inside the workspace. */
  function ReadScope(disk: Disk, raw: string): Option<WriteScope> {
    var path := disk.resolve(PathPart(raw));
    if HasPattern(PathPart(raw)) || !Contains(disk.root, path) then None
    else Some(WriteScope(path, IsTree(raw), if IsTree(raw) then "" else disk.digest(path)))
  }

  function ReadScopes(disk: Disk, values: seq<string>): Option<seq<WriteScope>> {
    if values == [] then Some([])
    else
      var init := ReadScopes(disk, values[..|values| - 1]);
      var raw := Strip(values[|values| - 1]);
      if init.None? then None
      else if raw == "" then init
      else if ReadScope(disk, raw).None? then None
      else Some(init.value + [ReadScope(disk, raw).value])
  }

  function DeclaredWriteScopes(disk: Disk, values: seq<string>): Option<seq<WriteScope>> {
    var scopes := ReadScopes(disk, values);
    if scopes.None? then None else Some(Normalize(scopes.value))
  }

  /** The value, without outer blanks, names this path: as it stands, or with all that lies
      under it if it ends in a slash or backslash and two stars. There is no other pattern
      in it, and the path leads into the workspace. */
  ghost predicate Reaches(disk: Disk, value: string, path: string, tree: bool) {
    var text := Strip(value);
    var name := if tree then text[..Max(0, |text| - 3)] else text;
    && text != "" && (tree <==> EndsInTree(text))
    && IsPlain(name) && path == disk.resolve(name) && Contains(disk.root, path)
  }

  predicate IsPlain(name: string) {
    forall i :: 0 <= i < |name| ==> name[i] != '*' && name[i] != '?' && name[i] != '[' && name[i] != ']'
  }

  predicate EndsInTree(text: string) {
    |text| >= 3 && (text[|text| - 3] == '/' || text[|text| - 3] == '\\') && text[|text| - 2] == text[|text| - 1] == '*'
  }

  lemma {:induction false} ReachesExact(disk: Disk, value: string, path: string, tree: bool)
    ensures Reaches(disk, value, path, tree)
       <==> && Strip(value) != "" && ReadScope(disk, Strip(value)).Some?
            && ReadScope(disk, Strip(value)).value.path == path && ReadScope(disk, Strip(value)).value.recursive == tree
  {
    var text := Strip(value);
    var name := if tree then text[..Max(0, |text| - 3)] else text;
    TreeExact(text);
    PatternExact(name);
    if tree == IsTree(text) {
      assert PathPart(text) == name;
    }
    hide Strip, IsTree, HasPattern, Contains, PathPart, EndsInTree, IsPlain;
  }

  lemma {:induction false} TreeExact(text: string)
    ensures IsTree(text) <==> EndsInTree(text)
  {
    if |text| >= 3 {
      var end := text[|text| - 3..];
      assert end == [end[0], end[1], end[2]];
      assert "/**" == ['/', '*', '*'] && "\\**" == ['\\', '*', '*'];
    }
  }

  lemma {:induction false} PatternExact(name: string)
    ensures !HasPattern(name) <==> IsPlain(name)
  {
    if !HasPattern(name) {
      forall i | 0 <= i < |name|
        ensures name[i] != '*' && name[i] != '?' && name[i] != '[' && name[i] != ']'
      {
        assert name[i] in name;
      }
    }
  }

  lemma {:induction false} ValuesExact(disk: Disk, value: string)
    ensures Readable(disk, value) <==> OnlyBlanks(value) || exists path, tree :: Reaches(disk, value, path, tree)
    ensures forall file :: Declares(disk, value, file)
                      <==> exists path, tree :: Reaches(disk, value, path, tree) && (path == file || (tree && Contains(path, file)))
  {
    StripBlank(value);
    forall path, tree
      ensures Reaches(disk, value, path, tree)
         <==> && Strip(value) != "" && ReadScope(disk, Strip(value)).Some?
              && ReadScope(disk, Strip(value)).value.path == path && ReadScope(disk, Strip(value)).value.recursive == tree
    {
      ReachesExact(disk, value, path, tree);
    }
    hide Strip, ReadScope, Contains, OnlyBlanks, Reaches;
    if Strip(value) != "" && ReadScope(disk, Strip(value)).Some? {
      var s := ReadScope(disk, Strip(value)).value;
      assert Reaches(disk, value, s.path, s.recursive);
    }
  }

  /** A value that does not make the whole list fail. */
  predicate Readable(disk: Disk, value: string) {
    Strip(value) == "" || ReadScope(disk, Strip(value)).Some?
  }

  /** The files a readable value declares. */
  predicate Declares(disk: Disk, value: string, file: string) {
    Strip(value) != "" && ReadScope(disk, Strip(value)).Some? && Protects(ReadScope(disk, Strip(value)).value, file)
  }

  /** The loop of declared_write_scopes. A list is accepted exactly when each of
      its values is, and then it protects exactly the declared files, all of
      them in the workspace. */
  method ReadDeclared(disk: Disk, values: seq<string>) returns (r: Option<seq<WriteScope>>)
    ensures r == DeclaredWriteScopes(disk, values)
    ensures r.Some? <==> forall v :: v in values ==> OnlyBlanks(v) || exists path, tree :: Reaches(disk, v, path, tree)
    ensures r.Some? ==> NoneUnderAnother(r.value) && forall file :: ProtectsAny(r.value, file) ==> Contains(disk.root, file)
    ensures r.Some? ==> forall file :: ProtectsAny(r.value, file) <==>
              exists v, path, tree :: v in values && Reaches(disk, v, path, tree) && (path == file || (tree && Contains(path, file)))
  {
    hide ReadScope, Strip, Normalize, Declares, Readable, OnlyBlanks, Reaches, Contains;
    forall v | v in values
      ensures Readable(disk, v) <==> OnlyBlanks(v) || exists path, tree :: Reaches(disk, v, path, tree)
      ensures forall file :: Declares(disk, v, file)
                        <==> exists path, tree :: Reaches(disk, v, path, tree) && (path == file || (tree && Contains(path, file)))
    {
      ValuesExact(disk, v);
    }
    var scopes: seq<WriteScope> := [];
    for i := 0 to |values|
      invariant ReadScopes(disk, values[..i]) == Some(scopes)
    {
      assert values[..i + 1][..i] == values[..i];
      var raw := Strip(values[i]);
      if raw != "" {
        var scope := ReadScope(disk, raw);
        if scope.None? {
          ReadScopesFails(disk, values, i + 1);
          ReadScopesAccepts(disk, values);
          return None;
        }
        scopes := scopes + [scope.value];
      }
    }
    assert values[..|values|] == values;
    ReadScopesAccepts(disk, values);
    DeclaredMeaning(disk, values);
    var compact := NormalizeScopes(scopes);
    r := Some(compact);
  }

  lemma {:induction false} ReadScopesFails(disk: Disk, values: seq<string>, i: nat)
    requires i <= |values| && ReadScopes(disk, values[..i]).None?
    ensures ReadScopes(disk, values).None?
    decreases |values|
  {
    if i < |values| {
      assert values[..|values| - 1][..i] == values[..i];
      ReadScopesFails(disk, values[..|values| - 1], i);
    } else {
      assert values[..i] == values;
    }
  }

  lemma {:induction false} ReadScopesAccepts(disk: Disk, values: seq<string>)
    ensures ReadScopes(disk, values).Some? <==> forall v :: v in values ==> Readable(disk, v)
  {
    hide ReadScope, Strip;
    if values != [] {
      var n := |values| - 1;
      ReadScopesAccepts(disk, values[..n]);
      assert values == values[..n] + [values[n]];
      if ReadScopes(disk, values[..n]).None? {
        var v :| v in values[..n] && !Readable(disk, v);
        assert v in values;
      } else if !Readable(disk, values[n]) {
        assert values[n] in values;
      }
    }
  }

  lemma {:induction false} ReadScopesMeaning(disk: Disk, values: seq<string>, file: string)
    requires ReadScopes(disk, values).Some?
    ensures ProtectsAny(ReadScopes(disk, values).value, file) <==> exists v :: v in values && Declares(disk, v, file)
  {
    hide ReadScope, Strip, Protects;
    if values != [] {
      var n := |values| - 1;
      ReadScopesMeaning(disk, values[..n], file);
      assert values == values[..n] + [values[n]];
      var scopes := ReadScopes(disk, values[..n]).value;
      if Strip(values[n]) != "" {
        ProtectsAnyAppend(scopes, ReadScope(disk, Strip(values[n])).value, file);
      }
      if Declares(disk, values[n], file) {
        assert values[n] in values;
      }
    }
  }

  lemma {:induction false} ProtectsAnyAppend(ss: seq<WriteScope>, s: WriteScope, file: string)
    ensures ProtectsAny(ss + [s], file) <==> ProtectsAny(ss, file) || Protects(s, file)
  {
    if ProtectsAny(ss, file) {
      var t :| t in ss && Protects(t, file);
      assert t in ss + [s];
    }
    if Protects(s, file) {
      assert s in ss + [s];
    }
  }

  /** Declared scopes protect exactly the declared files, all in the workspace. */
  lemma {:induction false} DeclaredMeaning(disk: Disk, values: seq<string>)
    requires DeclaredWriteScopes(disk, values).Some?
    ensures forall file :: ProtectsAny(DeclaredWriteScopes(disk, values).value, file)
              <==> exists v :: v in values && Declares(disk, v, file)
    ensures forall file :: ProtectsAny(DeclaredWriteScopes(disk, values).value, file) ==> Contains(disk.root, file)
  {
    hide Normalize, ReadScopes, ProtectsAny, Declares, Contains;
    var scopes := ReadScopes(disk, values).value;
    NormalizeMeaning(scopes);
    forall file
      ensures ProtectsAny(Normalize(scopes), file) <==> exists v :: v in values && Declares(disk, v, file)
      ensures ProtectsAny(Normalize(scopes), file) ==> Contains(disk.root, file)
    {
      ReadScopesMeaning(disk, values, file);
      if ProtectsAny(scopes, file) {
        var v :| v in values && Declares(disk, v, file);
        DeclaredInside(disk, v, file);
      }
    }
  }

  lemma {:induction false} DeclaredInside(disk: Disk, value: string, file: string)
    requires Declares(disk, value, file)
    ensures Contains(disk.root, file)
  {
    hide Contains, Strip;
    var s := ReadScope(disk, Strip(value)).value;
    if s.path != file {
      ContainsTransitive(disk.root, s.path, file);
    }
  }

  /*------------------------- reading the same list again ----------------------*/

  function Rehash(disk: Disk, s: WriteScope): WriteScope {
    s.(baselineHash := BaselineOf(disk, s))
  }

  function RehashAll(disk: Disk, ss: seq<WriteScope>): (r: seq<WriteScope>)
    ensures |r| == |ss| && forall i :: 0 <= i < |ss| ==> r[i] == Rehash(disk, ss[i])
  {
    seq(|ss|, i requires 0 <= i < |ss| => Rehash(disk, ss[i]))
  }

  lemma {:induction false} RehashConcat(disk: Disk, a: seq<WriteScope>, b: seq<WriteScope>)
    ensures RehashAll(disk, a + b) == RehashAll(disk, a) + RehashAll(disk, b)
  {
  }

  lemma {:induction false} RehashPut(disk: Disk, acc: seq<WriteScope>, s: WriteScope)
    ensures Put(RehashAll(disk, acc), Rehash(disk, s)) == RehashAll(disk, Put(acc, s))
  {
    if acc != [] {
      var all := RehashAll(disk, acc);
      assert all[1..] == RehashAll(disk, acc[1..]);
      RehashPut(disk, acc[1..], s);
      RehashConcat(disk, [acc[0]], Put(acc[1..], s));
      RehashConcat(disk, [s], acc[1..]);
    }
  }

  lemma {:induction false} RehashDedup(disk: Disk, ss: seq<WriteScope>)
    ensures Dedup(RehashAll(disk, ss)) == RehashAll(disk, Dedup(ss))
  {
    if ss != [] {
      var n := |ss| - 1;
      assert RehashAll(disk, ss)[..n] == RehashAll(disk, ss[..n]);
      RehashDedup(disk, ss[..n]);
      RehashPut(disk, Dedup(ss[..n]), ss[n]);
    }
  }

  lemma {:induction false} RehashInsert(disk: Disk, s: WriteScope, ss: seq<WriteScope>)
    ensures Insert(Rehash(disk, s), RehashAll(disk, ss), ScopeLeq) == RehashAll(disk, Insert(s, ss, ScopeLeq))
  {
    if ss != [] {
      var all := RehashAll(disk, ss);
      assert ScopeLeq(all[0], Rehash(disk, s)) == ScopeLeq(ss[0], s);
      hide ScopeLeq, Rehash;
      if ScopeLeq(ss[0], s) {
        RehashInsert(disk, s, ss[1..]);
        var rest := Insert(s, ss[1..], ScopeLeq);
        RehashConcat(disk, [ss[0]], rest);
        assert all[1..] == RehashAll(disk, ss[1..]);
        assert RehashAll(disk, [ss[0]]) == [all[0]];
      } else {
        RehashConcat(disk, [s], ss);
        assert RehashAll(disk, [s]) == [Rehash(disk, s)];
      }
    } else {
      assert RehashAll(disk, [s]) == [Rehash(disk, s)];
    }
  }

  lemma {:induction false} RehashSort(disk: Disk, ss: seq<WriteScope>)
    ensures Sort(RehashAll(disk, ss), ScopeLeq) == RehashAll(disk, Sort(ss, ScopeLeq))
  {
    if ss != [] {
      var n := |ss| - 1;
      assert RehashAll(disk, ss)[..n] == RehashAll(disk, ss[..n]);
      RehashSort(disk, ss[..n]);
      RehashInsert(disk, ss[n], Sort(ss[..n], ScopeLeq));
    }
  }

  lemma {:induction false} RehashSubsumed(disk: Disk, ss: seq<WriteScope>, s: WriteScope)
    ensures Subsumed(RehashAll(disk, ss), Rehash(disk, s)) <==> Subsumed(ss, s)
  {
    var all := RehashAll(disk, ss);
    if Subsumed(ss, s) {
      var i :| 0 <= i < |ss| && ss[i].recursive && Contains(ss[i].path, s.path);
      assert all[i] in all;
    }
    if Subsumed(all, Rehash(disk, s)) {
      var i :| 0 <= i < |all| && all[i].recursive && Contains(all[i].path, s.path);
      assert ss[i] in ss;
    }
  }

  lemma {:induction false} RehashCompact(disk: Disk, ss: seq<WriteScope>)
    ensures Compact(RehashAll(disk, ss)) == RehashAll(disk, Compact(ss))
  {
    hide Subsumed;
    if ss != [] {
      var n := |ss| - 1;
      assert RehashAll(disk, ss)[..n] == RehashAll(disk, ss[..n]);
      RehashCompact(disk, ss[..n]);
      RehashSubsumed(disk, Compact(ss[..n]), ss[n]);
      RehashConcat(disk, Compact(ss[..n]), [ss[n]]);
    }
  }

  /** Hashes play no part in the normal form. */
  lemma {:induction false} RehashNormalize(disk: Disk, ss: seq<WriteScope>)
    ensures Normalize(RehashAll(disk, ss)) == RehashAll(disk, Normalize(ss))
  {
    RehashDedup(disk, ss);
    RehashSort(disk, Dedup(ss));
    RehashCompact(disk, Sort(Dedup(ss), ScopeLeq));
  }

  lemma {:induction false} RereadScopes(before: Disk, after: Disk, values: seq<string>)
    requires after.root == before.root && after.resolve == before.resolve
    ensures ReadScopes(after, values).Some? <==> ReadScopes(before, values).Some?
    ensures ReadScopes(before, values).Some? ==>
              ReadScopes(after, values).value == RehashAll(after, ReadScopes(before, values).value)
  {
    hide Contains, Strip;
    if values != [] {
      var n := |values| - 1;
      RereadScopes(before, after, values[..n]);
      if ReadScopes(before, values).Some? && Strip(values[n]) != "" {
        RehashConcat(after, ReadScopes(before, values[..n]).value, [ReadScope(before, Strip(values[n])).value]);
      }
    }
  }

  lemma {:induction false} RereadNormal(before: Disk, after: Disk, values: seq<string>)
    requires after.root == before.root && after.resolve == before.resolve
    requires DeclaredWriteScopes(before, values).Some?
    ensures DeclaredWriteScopes(after, values) == Some(RehashAll(after, DeclaredWriteScopes(before, values).value))
  {
    hide Normalize;
    RereadScopes(before, after, values);
    RehashNormalize(after, ReadScopes(before, values).value);
  }

  lemma {:induction false} RehashFixpoint(disk: Disk, ss: seq<WriteScope>)
    ensures RehashAll(disk, ss) == ss <==> forall s :: s in ss ==> s.baselineHash == BaselineOf(disk, s)
  {
    if RehashAll(disk, ss) == ss {
      forall s | s in ss
        ensures s.baselineHash == BaselineOf(disk, s)
      {
        var i :| 0 <= i < |ss| && ss[i] == s;
        assert RehashAll(disk, ss)[i] == Rehash(disk, s);
      }
    }
  }

  /** Where every path still leads to the same place, reading a declaration
      again gives the same scopes exactly when no file that is declared by
      itself, and not below a declared directory, has changed. */
  lemma {:induction false} RereadExact(before: Disk, after: Disk, values: seq<string>)
    requires after.root == before.root && after.resolve == before.resolve
    requires DeclaredWriteScopes(before, values).Some?
    ensures DeclaredWriteScopes(after, values) == DeclaredWriteScopes(before, values)
       <==> forall s :: s in DeclaredWriteScopes(before, values).value && !s.recursive ==>
              after.digest(s.path) == before.digest(s.path)
  {
    hide DeclaredWriteScopes;
    var ss := DeclaredWriteScopes(before, values).value;
    RereadNormal(before, after, values);
    RereadNormal(before, before, values);
    RehashFixpoint(before, ss);
    RehashFixpoint(after, ss);
  }
}
