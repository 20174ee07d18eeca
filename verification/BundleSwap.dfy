/**
 * Writing one artifact bundle as an atomic directory switch, when any of the filesystem operations
 * may fail, those of the cleanup too, and another process may make the artifact directory while it
 * is moved aside.
 */
module BundleSwap {
  import opened Common

  const META := "codegen_meta.json"
  const INIT := "__init__.py"

  /** What a directory holds under a name; only regular files are preserved or hashed. */
  datatype Entry = File(text: string) | Other

  type Files = map<string, Entry>

  datatype WriteError = CannotCreateDir | CannotStage | BadName | CannotMoveAside | CannotMoveIn | CannotPutBack

  type Outcome = Result<bool, WriteError>

  datatype Digest = Digest(sha256: string, lines: nat)

  /** The opaque functions of file contents, and the file names that are recorded by role. */
  datatype Layout = Layout(
    artifact: string,
    roles: map<string, string>,
    digest: string -> Digest,
    render: (string, map<string, Digest>) -> string)
  {
    /** The key a file's digest is recorded under. */
    function Key(name: string): string {
      if name in roles then roles[name] else name
    }
  }

  predicate IsTempName(name: string) {
    ".codegen_tmp_" <= name || ".codegen_old_" <= name
  }

  predicate PlainName(name: string) {
    name != "" && '/' !in name && '\\' !in name && name != "." && name != ".."
  }

  predicate AllPlain(files: map<string, string>) {
    forall n | n in files :: PlainName(n)
  }

  // ---- what is staged ---------------------------------------------------------

  predicate Keeps(name: string, entry: Entry, files: map<string, string>) {
    entry.File? && !IsTempName(name) && name != META && name !in files
  }

  /** The regular files of the old bundle a write without meta carries over. */
  function Preserved(existing: Files, files: map<string, string>): Files {
    map n | n in existing && Keeps(n, existing[n], files) :: existing[n]
  }

  function AsFiles(files: map<string, string>): Files {
    map n | n in files :: File(files[n])
  }

  function Kept(existing: Files, files: map<string, string>, hasMeta: bool): Files {
    if hasMeta then map[] else Preserved(existing, files)
  }

  /** What is written: the files and, where none is kept, an initialiser. */
  function Emitted(kept: Files, files: map<string, string>): map<string, string> {
    if INIT in files || INIT in kept then files else files[INIT := ""]
  }

  /** Whether the old meta is carried over. */
  predicate CarriesMeta(existing: Files, hasMeta: bool) {
    !hasMeta && META in existing && existing[META].File?
  }

  /** What is kept, the emitted files over it, and the old meta over those. */
  function StagedOver(kept: Files, existing: Files, files: map<string, string>, hasMeta: bool): Files {
    var all := kept + AsFiles(Emitted(kept, files));
    if CarriesMeta(existing, hasMeta) then all[META := existing[META]] else all
  }

  /** The bundle staged over an existing one, before a fresh meta is added. */
  function Staged(existing: Files, files: map<string, string>, hasMeta: bool): Files {
    StagedOver(Kept(existing, files, hasMeta), existing, files, hasMeta)
  }

  /** The operations that write what is not kept, one for each file. */
  function WritingOps(kept: Files, existing: Files, files: map<string, string>, hasMeta: bool): nat {
    |Emitted(kept, files)| + (if CarriesMeta(existing, hasMeta) then 1 else 0)
  }

  function StagingOps(existing: Files, files: map<string, string>, hasMeta: bool): nat {
    var kept := Kept(existing, files, hasMeta);
    |kept| + WritingOps(kept, existing, files, hasMeta)
  }

  function MetaOps(hasMeta: bool): nat {
    if hasMeta then 1 else 0
  }

  /** When the last rename of a write comes, if nothing has failed: after staging, the meta, and moving aside. */
  function LastRename(start: nat, existing: Files, files: map<string, string>, hasMeta: bool): nat {
    start + 1 + StagingOps(existing, files, hasMeta) + MetaOps(hasMeta) + 3
  }

  /** With a fresh meta the bundle holds the emitted files and an initialiser, and nothing of the old one. */
  lemma FreshMetaDropsTheRest(existing: Files, files: map<string, string>)
    ensures Staged(existing, files, true).Keys == files.Keys + {INIT}
    ensures forall n | n in files :: Staged(existing, files, true)[n] == File(files[n])
    ensures INIT !in files ==> Staged(existing, files, true)[INIT] == File("")
  {
  }

  /** Without one, no regular file of the old bundle is dropped and no file that was not emitted changes. */
  lemma PartialUpdateKeepsTheRest(existing: Files, files: map<string, string>, n: string)
    requires n in existing && existing[n].File? && !IsTempName(n)
    ensures n in Staged(existing, files, false)
    ensures n !in files ==> Staged(existing, files, false)[n] == existing[n]
  {
  }

  /** An emitted file wins over the preserved copy, except an emitted meta over an existing meta file. */
  lemma EmittedFilesWin(existing: Files, files: map<string, string>, n: string, hasMeta: bool)
    requires n in files
    ensures n in Staged(existing, files, hasMeta)
    ensures Staged(existing, files, hasMeta)[n] == File(files[n]) <==>
            (n == META && !hasMeta && META in existing && existing[META].File? ==> existing[META].text == files[n])
  {
  }

  // ---- the recorded hashes ------------------------------------------------------

  /** Each recorded digest is that of a regular file with that key, and every file's key is recorded. */
  ghost predicate RecordedFor(layout: Layout, outputs: map<string, Digest>, dir: Files) {
    && (forall n | n in dir && dir[n].File? && n != META :: layout.Key(n) in outputs)
    && (forall k | k in outputs :: exists n ::
          n in dir && dir[n].File? && n != META && layout.Key(n) == k && outputs[k] == layout.digest(dir[n].text))
  }

  /** Whether a check of the recorded digests passes for every file of the bundle. */
  ghost predicate HashesHold(layout: Layout, outputs: map<string, Digest>, dir: Files) {
    forall n | n in dir && dir[n].File? && n != META ::
      layout.Key(n) in outputs && outputs[layout.Key(n)] == layout.digest(dir[n].text)
  }

  /** The recorded hashes hold exactly when no two files of different content share a key. */
  lemma HashesHoldUnlessKeysClash(layout: Layout, outputs: map<string, Digest>, dir: Files)
    requires RecordedFor(layout, outputs, dir)
    ensures HashesHold(layout, outputs, dir) <==>
            forall n, m | n in dir && m in dir && dir[n].File? && dir[m].File? && n != META && m != META
                          && layout.Key(n) == layout.Key(m) ::
              layout.digest(dir[n].text) == layout.digest(dir[m].text)
  {
  }

  class CodegenMeta {
    var signature: string
    var outputs: map<string, Digest>

    constructor (signature: string)
      ensures this.signature == signature && outputs == map[]
    {
      this.signature := signature;
      outputs := map[];
    }

    /** Fill outputs from the regular files of a directory, the meta file left out. */
    method RecordOutputHashes(layout: Layout, dir: Files)
      modifies this`outputs
      ensures RecordedFor(layout, outputs, dir)
    {
      outputs := map[];
      var names := dir.Keys;
      while names != {}
        invariant names <= dir.Keys
        invariant RecordedFor(layout, outputs, map n | n in dir && n !in names :: dir[n])
        decreases names
      {
        var name :| name in names;
        ghost var done := map n | n in dir && n !in names :: dir[n];
        names := names - {name};
        ghost var done' := map n | n in dir && n !in names :: dir[n];
        assert done' == done[name := dir[name]];
        if name != META && dir[name].File? {
          ghost var before := outputs;
          outputs := outputs[layout.Key(name) := layout.digest(dir[name].text)];
          forall k | k in outputs
            ensures exists n :: n in done' && done'[n].File? && n != META && layout.Key(n) == k
                                && outputs[k] == layout.digest(done'[n].text)
          {
            if k == layout.Key(name) {
              assert name in done';
            } else {
              var n :| n in done && done[n].File? && n != META && layout.Key(n) == k
                       && before[k] == layout.digest(done[n].text);
              assert n in done';
            }
          }
        } else {
          forall k | k in outputs
            ensures exists n :: n in done' && done'[n].File? && n != META && layout.Key(n) == k
                                && outputs[k] == layout.digest(done'[n].text)
          {
            var n :| n in done && done[n].File? && n != META && layout.Key(n) == k
                     && outputs[k] == layout.digest(done[n].text);
            assert n in done';
          }
        }
      }
      assert (map n | n in dir && n !in names :: dir[n]) == dir;
    }
  }

  function Without(files: Files, names: set<string>): Files {
    map n | n in files && n !in names :: files[n]
  }

  lemma WithoutOneLess(files: Files, names: set<string>, name: string)
    requires name in names
    ensures Without(files, names - {name})
            == if name in files then Without(files, names)[name := files[name]] else Without(files, names)
    ensures name !in Without(files, names)
    ensures |Without(files, names - {name})| == |Without(files, names)| + (if name in files then 1 else 0) <= |files|
  {
    var less := Without(files, names - {name});
    SubsetCount(less.Keys, files.Keys);
    assert |less| == |less.Keys| && |files| == |files.Keys|;
  }

  lemma {:induction false} SubsetCount(a: set<string>, b: set<string>)
    requires a <= b
    ensures |a| <= |b|
  {
    if a != {} {
      var x :| x in a;
      SubsetCount(a - {x}, b - {x});
    }
  }

  /** Whether one directory alone may differ. */
  predicate SameBut(was: map<string, Files>, now: map<string, Files>, dir: string) {
    dir in now && now == was[dir := now[dir]]
  }

  lemma SameButTwice(was: map<string, Files>, mid: map<string, Files>, now: map<string, Files>, dir: string)
    requires SameBut(was, mid, dir) && SameBut(mid, now, dir)
    ensures SameBut(was, now, dir)
  {
  }

  // ---- which operations fail --------------------------------------------------------

  /** None of the operations from one tick up to another fails. */
  ghost predicate Quiet(failing: set<nat>, from: nat, to: nat) {
    forall t | from <= t < to :: t !in failing
  }

  ghost predicate OneFault(failing: set<nat>, from: nat, to: nat) {
    forall t, u | from <= t < u < to :: t !in failing || u !in failing
  }

  /** n operations from a tick on, up to the first that fails. */
  ghost predicate Ran(failing: set<nat>, from: nat, n: nat, ok: bool, clock: nat) {
    if ok then clock == from + n && Quiet(failing, from, clock)
    else from < clock <= from + n && clock - 1 in failing && Quiet(failing, from, clock - 1)
  }

  /** Runs of operations one after the other make one. */
  lemma RanOn(failing: set<nat>, from: nat, n: nat, ok: bool, mid: nat, m: nat, ok': bool, end: nat)
    requires Ran(failing, from, n, ok, mid)
    requires if ok then Ran(failing, mid, m, ok', end) else !ok' && end == mid
    ensures Ran(failing, from, n + m, ok', end)
  {
  }

  // ---- the swap -------------------------------------------------------------------

  /** The directory that holds the artifact directory and the temporary siblings. */
  class Parent {
    var dirs: map<string, Files>
    var clock: nat                  // the operations attempted so far
    const failing: set<nat>         // which of them fail

    constructor (dirs: map<string, Files>, failing: set<nat>)
      ensures this.dirs == dirs && this.failing == failing && clock == 0
    {
      this.dirs := dirs;
      this.failing := failing;
      clock := 0;
    }

    /** One operation of the filesystem that may fail. */
    method Attempt() returns (ok: bool)
      modifies this`clock
      ensures clock == old(clock) + 1 && ok == (old(clock) !in failing)
    {
      ok := clock !in failing;
      clock := clock + 1;
    }

    /** Write one file of a staging directory; a write that fails may leave anything there. */
    method WriteFile(dir: string, name: string, entry: Entry) returns (ok: bool)
      requires dir in dirs
      modifies this
      ensures clock == old(clock) + 1 && ok == (old(clock) !in failing)
      ensures SameBut(old(dirs), dirs, dir)
      ensures ok ==> dirs[dir] == old(dirs[dir])[name := entry]
    {
      ok := Attempt();
      var written: Files := *;
      dirs := dirs[dir := if ok then dirs[dir][name := entry] else written];
    }

    /** Copy the regular files of the old bundle that the new one does not replace. */
    method CopyPreserved(layout: Layout, temp: string, files: map<string, string>) returns (ok: bool)
      requires layout.artifact in dirs && temp in dirs && temp != layout.artifact && dirs[temp] == map[]
      modifies this
      ensures Ran(failing, old(clock), |Preserved(old(dirs[layout.artifact]), files)|, ok, clock)
      ensures SameBut(old(dirs), dirs, temp)
      ensures ok ==> dirs[temp] == Preserved(dirs[layout.artifact], files)
    {
      var existing := dirs[layout.artifact];
      var names := existing.Keys;
      ok := true;
      ghost var target, was := Preserved(existing, files), dirs;
      assert Without(target, names) == map[];
      while names != {}
        invariant names <= existing.Keys && ok
        invariant SameBut(was, dirs, temp) && dirs[temp] == Without(target, names)
        invariant Ran(failing, old(clock), |Without(target, names)|, true, clock)
        decreases names
      {
        var name :| name in names;
        ghost var mid, before, more := clock, dirs, |Without(target, names)|;
        WithoutOneLess(target, names, name);
        ok := CopyOne(temp, name, existing[name], files, target, names);
        names := names - {name};
        SameButTwice(was, before, dirs, temp);
        RanOn(failing, old(clock), more, true, mid, if name in target then 1 else 0, ok, clock);
        if !ok {
          return;
        }
      }
      assert Without(target, {}) == target;
    }

    /** Copy one file, if it is kept. */
    method CopyOne(temp: string, name: string, entry: Entry, files: map<string, string>,
                   ghost target: Files, ghost names: set<string>) returns (ok: bool)
      requires temp in dirs && dirs[temp] == Without(target, names) && name in names
      requires name in target <==> Keeps(name, entry, files)
      requires name in target ==> target[name] == entry
      modifies this
      ensures SameBut(old(dirs), dirs, temp)
      ensures Ran(failing, old(clock), if name in target then 1 else 0, ok, clock)
      ensures ok ==> dirs[temp] == Without(target, names - {name})
    {
      ok := true;
      WithoutOneLess(target, names, name);
      if Keeps(name, entry, files) {
        ok := WriteFile(temp, name, entry);
      }
    }

    /** Write the emitted files over what is staged already. */
    method WriteEmitted(temp: string, files: map<string, string>) returns (ok: bool)
      requires temp in dirs
      modifies this
      ensures Ran(failing, old(clock), |files|, ok, clock)
      ensures SameBut(old(dirs), dirs, temp)
      ensures ok ==> dirs[temp] == old(dirs[temp]) + AsFiles(files)
    {
      var names := files.Keys;
      ok := true;
      while names != {}
        invariant names <= files.Keys && |files| == |files.Keys|
        invariant ok && old(clock) <= clock == old(clock) + |files| - |names| && Quiet(failing, old(clock), clock)
        invariant SameBut(old(dirs), dirs, temp)
        invariant dirs[temp] == old(dirs[temp]) + map n | n in files && n !in names :: File(files[n])
        decreases names
      {
        var name :| name in names;
        names := names - {name};
        assert clock + 1 == old(clock) + |files| - |names|;
        ghost var before := dirs;
        ok := WriteFile(temp, name, File(files[name]));
        SameButTwice(old(dirs), before, dirs, temp);
        if !ok {
          return;
        }
        assert dirs[temp] == old(dirs[temp]) + map n | n in files && n !in names :: File(files[n]);
      }
      assert (map n | n in files && n !in names :: File(files[n])) == AsFiles(files);
    }

    /** Stage what is kept of the old bundle: nothing if a fresh meta comes. */
    method StageKept(layout: Layout, temp: string, files: map<string, string>, hasMeta: bool) returns (ok: bool)
      requires layout.artifact in dirs && temp in dirs && temp != layout.artifact && dirs[temp] == map[]
      modifies this
      ensures Ran(failing, old(clock), |Kept(old(dirs[layout.artifact]), files, hasMeta)|, ok, clock)
      ensures SameBut(old(dirs), dirs, temp)
      ensures ok ==> dirs[temp] == Kept(old(dirs[layout.artifact]), files, hasMeta)
    {
      ok := true;
      if !hasMeta {
        ok := CopyPreserved(layout, temp, files);
      }
    }

    /** Write the rest of the bundle over what is kept. */
    method StageRest(layout: Layout, temp: string, files: map<string, string>, hasMeta: bool) returns (ok: bool)
      requires layout.artifact in dirs && temp in dirs && temp != layout.artifact
      modifies this
      ensures var n := WritingOps(old(dirs[temp]), old(dirs[layout.artifact]), files, hasMeta);
              Ran(failing, old(clock), n, ok, clock)
      ensures SameBut(old(dirs), dirs, temp)
      ensures ok ==> dirs[temp] == StagedOver(old(dirs[temp]), old(dirs[layout.artifact]), files, hasMeta)
    {
      ghost var start := clock;
      var emitted := Emitted(dirs[temp], files);
      ok := WriteEmitted(temp, emitted);
      if ok {
        ghost var mid, before := clock, dirs;
        ok := CopyMeta(layout, temp, hasMeta);
        SameButTwice(old(dirs), before, dirs, temp);
        RanOn(failing, start, |emitted|, true, mid, clock - mid, ok, clock);
      }
    }

    /** Stage every file of the bundle. */
    method StageFiles(layout: Layout, temp: string, files: map<string, string>, hasMeta: bool) returns (ok: bool)
      requires layout.artifact in dirs && temp in dirs && temp != layout.artifact && dirs[temp] == map[]
      modifies this
      ensures Ran(failing, old(clock), StagingOps(old(dirs[layout.artifact]), files, hasMeta), ok, clock)
      ensures SameBut(old(dirs), dirs, temp)
      ensures ok ==> dirs[temp] == Staged(old(dirs[layout.artifact]), files, hasMeta)
    {
      ghost var start, existing := clock, dirs[layout.artifact];
      ghost var kept := Kept(existing, files, hasMeta);
      ghost var n := WritingOps(kept, existing, files, hasMeta);
      ok := StageKept(layout, temp, files, hasMeta);
      ghost var mid, all, before := clock, ok, dirs;
      if ok {
        ok := StageRest(layout, temp, files, hasMeta);
        SameButTwice(old(dirs), before, dirs, temp);
      }
      RanOn(failing, start, |kept|, all, mid, n, ok, clock);
    }

    /** Stage a bundle; the error says whether a name was refused or an operation failed. */
    method StageBundle(layout: Layout, temp: string, files: map<string, string>, hasMeta: bool)
      returns (r: Outcome)
      requires layout.artifact in dirs && temp in dirs && temp != layout.artifact && dirs[temp] == map[]
      modifies this
      ensures StagedAs(failing, old(clock), StagingOps(old(dirs[layout.artifact]), files, hasMeta), AllPlain(files), r,
                       clock)
      ensures SameBut(old(dirs), dirs, temp)
      ensures r.Ok? ==> dirs[temp] == Staged(old(dirs[layout.artifact]), files, hasMeta)
    {
      if !AllPlain(files) {
        return Err(BadName);
      }
      var ok := StageFiles(layout, temp, files, hasMeta);
      r := if ok then Ok(true) else Err(CannotStage);
    }

    /** Without a fresh meta, carry the old one over last. */
    method CopyMeta(layout: Layout, temp: string, hasMeta: bool) returns (ok: bool)
      requires layout.artifact in dirs && temp in dirs && temp != layout.artifact
      modifies this
      ensures Ran(failing, old(clock), if CarriesMeta(old(dirs[layout.artifact]), hasMeta) then 1 else 0, ok, clock)
      ensures SameBut(old(dirs), dirs, temp)
      ensures ok ==>
                var existing := old(dirs[layout.artifact]);
                dirs[temp] == if CarriesMeta(existing, hasMeta) then old(dirs[temp])[META := existing[META]]
                              else old(dirs[temp])
    {
      var existing := dirs[layout.artifact];
      ok := true;
      if !hasMeta && META in existing && existing[META].File? {
        ok := WriteFile(temp, META, existing[META]);
      }
    }

    /** Hash what is staged, then write the meta last. */
    method StageMeta(layout: Layout, temp: string, meta: CodegenMeta) returns (ok: bool)
      requires temp in dirs
      modifies this, meta`outputs
      ensures Ran(failing, old(clock), 1, ok, clock)
      ensures SameBut(old(dirs), dirs, temp)
      ensures RecordedFor(layout, meta.outputs, old(dirs[temp]))
      ensures ok ==> dirs[temp] == old(dirs[temp])[META := File(layout.render(meta.signature, meta.outputs))]
    {
      meta.RecordOutputHashes(layout, dirs[temp]);
      ok := WriteFile(temp, META, File(layout.render(meta.signature, meta.outputs)));
    }

    /** Add the meta, if there is one. */
    method AddMeta(layout: Layout, temp: string, meta: CodegenMeta?) returns (ok: bool)
      requires temp in dirs
      modifies this, if meta == null then {} else {meta}
      ensures Ran(failing, old(clock), MetaOps(meta != null), ok, clock)
      ensures SameBut(old(dirs), dirs, temp)
      ensures ok ==> IsBundle(layout, old(dirs[temp]), meta, dirs[temp])
    {
      ok := true;
      if meta != null {
        ok := StageMeta(layout, temp, meta);
      }
    }

    /** Stage the bundle and, if there is one, its meta. */
    method Stage(layout: Layout, files: map<string, string>, meta: CodegenMeta?, temp: string)
      returns (r: Outcome)
      requires layout.artifact in dirs && temp in dirs && temp != layout.artifact && dirs[temp] == map[]
      modifies this, if meta == null then {} else {meta}
      ensures var n := StagingOps(old(dirs[layout.artifact]), files, meta != null) + MetaOps(meta != null);
              StagedAs(failing, old(clock), n, AllPlain(files), r, clock)
      ensures SameBut(old(dirs), dirs, temp)
      ensures r.Ok? ==> IsBundle(layout, Staged(old(dirs[layout.artifact]), files, meta != null), meta, dirs[temp])
    {
      ghost var start, n := clock, StagingOps(dirs[layout.artifact], files, meta != null);
      r := StageBundle(layout, temp, files, meta != null);
      ghost var mid, bundled, before := clock, r, dirs;
      if r.Ok? {
        var ok := AddMeta(layout, temp, meta);
        SameButTwice(old(dirs), before, dirs, temp);
        r := if ok then r else Err(CannotStage);
      }
      StagedOn(failing, start, n, AllPlain(files), bundled, mid, MetaOps(meta != null), r, clock);
    }

    /** Move the old bundle aside; left is the backup to look at afterwards, if its name was taken. */
    method MoveAside(layout: Layout, backup: string) returns (ok: bool, left: Option<string>)
      requires layout.artifact in dirs && backup !in dirs
      modifies this
      ensures Ran(failing, old(clock), 3, ok, clock)
      ensures ok ==> left == Some(backup) && dirs == Aside(old(dirs), layout.artifact, backup)
      ensures !ok ==> left in {None, Some(backup)} && dirs - {backup} == old(dirs)
      ensures !ok && left == None ==> dirs == old(dirs)
    {
      left := None;
      ok := Attempt();               // reserve the backup's name
      if !ok {
        return;
      }
      left := Some(backup);
      dirs := dirs[backup := map[]];
      assert dirs - {backup} == old(dirs);
      ok := Attempt();               // it must be absent for the rename
      if !ok {
        return;
      }
      dirs := dirs - {backup};
      ok := Attempt();               // the rename
      if !ok {
        return;
      }
      dirs := Aside(dirs, layout.artifact, backup);
    }

    /** Rename the staged directory into place, over nothing or over an empty directory. */
    method MoveIn(layout: Layout, temp: string) returns (ok: bool)
      requires temp in dirs && temp != layout.artifact
      requires layout.artifact in dirs ==> dirs[layout.artifact] == map[]
      modifies this
      ensures clock == old(clock) + 1 && ok == (old(clock) !in failing)
      ensures dirs == if ok then (old(dirs) - {temp})[layout.artifact := old(dirs[temp])] else old(dirs)
    {
      ok := Attempt();
      if !ok {
        return;
      }
      dirs := (dirs - {temp})[layout.artifact := dirs[temp]];
    }

    /** Drop a directory if it is there; errors are ignored and may leave anything of it. */
    method DropTree(name: string)
      modifies this
      ensures dirs - {name} == old(dirs) - {name}
      ensures old(clock) <= clock && (Quiet(failing, old(clock), clock) ==> name !in dirs)
    {
      if name in dirs {
        var ok := Attempt();
        var rest: Files := *;
        dirs := if ok then dirs - {name} else dirs[name := rest];
        assert !ok ==> old(clock) in failing;
      }
    }

    /** Put the old bundle back if the new one never made it into place, and drop what is left over. */
    method Restore(layout: Layout, temp: string, backup: string, left: Option<string>) returns (ok: bool)
      requires temp != layout.artifact && backup != layout.artifact && temp != backup && left in {None, Some(backup)}
      requires left == None ==> backup !in dirs
      modifies this
      ensures old(clock) <= clock
      ensures !ok <==> PutsBack(old(dirs), layout.artifact, left) && old(clock) in failing
      ensures !ok ==> dirs == old(dirs)
      ensures ok ==> dirs - {temp, backup} == Restored(old(dirs), layout.artifact, temp, left)
      ensures Quiet(failing, old(clock), clock) ==> temp !in dirs && backup !in dirs
    {
      ok := true;
      if left.Some? && left.value in dirs {
        if layout.artifact !in dirs {
          ok := Attempt();
          if !ok {
            assert old(clock) in failing;
            return;
          }
          dirs := Aside(dirs, left.value, layout.artifact);
        } else {
          DropTree(left.value);
        }
      }
      ghost var was := dirs;
      DropTree(temp);
      assert backup in dirs - {temp} <==> backup in was - {temp};
      assert dirs - {temp, backup} == (was - {temp}) - {backup};
      assert (was - {temp}) - {backup} == (was - {backup}) - {temp};
    }

    /**
     * Swap a staged directory in, and clean up.  Only a failing last rename can keep the old bundle
     * from its place: if another rank's mkdir stands there, it is lost; if the rename back fails
     * too, it is left under the backup's name.
     */
    method Swap(layout: Layout, temp: string, backup: string, lateMkdir: bool, ghost ensured: map<string, Files>)
      returns (r: Outcome)
      requires layout.artifact in ensured && temp !in ensured && backup !in ensured && temp != backup
      requires SameBut(ensured, dirs, temp)
      modifies this
      ensures r == Swapped(failing, old(clock), lateMkdir)
      ensures LeftAs(ensured, dirs, layout.artifact, temp, backup, r, lateMkdir)
      ensures r.Ok? ==> dirs[layout.artifact] == old(dirs[temp])
      ensures old(clock) <= clock
      ensures (if r.Ok? then Quiet(failing, old(clock), clock) else OneFault(failing, old(clock), clock)) ==>
                temp !in dirs && backup !in dirs
    {
      ghost var staged := dirs[temp];
      var ok, left := MoveAside(layout, backup);
      if !ok {
        NothingMoved(ensured, layout.artifact, temp, backup, staged, dirs, left);
        ok := Restore(layout, temp, backup, left);
        return Err(CannotMoveAside);
      }
      if lateMkdir {
        dirs := dirs[layout.artifact := map[]];
      }
      r := Replace(layout, temp, backup, lateMkdir, ensured, staged);
    }

    /** With the old bundle aside, rename the staged directory into place and clean up. */
    method Replace(layout: Layout, temp: string, backup: string, lateMkdir: bool,
                   ghost ensured: map<string, Files>, ghost staged: Files)
      returns (r: Outcome)
      requires layout.artifact in ensured && temp !in ensured && backup !in ensured && temp != backup
      requires var aside := Aside(ensured[temp := staged], layout.artifact, backup);
               dirs == if lateMkdir then aside[layout.artifact := map[]] else aside
      modifies this
      ensures r == Replaced(failing, old(clock), lateMkdir)
      ensures LeftAs(ensured, dirs, layout.artifact, temp, backup, r, lateMkdir)
      ensures r.Ok? ==> dirs[layout.artifact] == staged
      ensures old(clock) <= clock
      ensures (if r.Ok? then Quiet(failing, old(clock), clock) else OneFault(failing, old(clock), clock)) ==>
                temp !in dirs && backup !in dirs
    {
      ghost var met := dirs;
      assert met - {layout.artifact} == Aside(ensured[temp := staged], layout.artifact, backup);
      var ok := MoveIn(layout, temp);
      if ok {
        ghost var there := dirs;
        DropTree(backup);
        SwapDone(ensured, layout.artifact, temp, backup, staged, met);
        assert dirs - {temp, backup} == (dirs - {backup}) - {temp};
        assert temp !in there - {backup} && layout.artifact in there - {backup};
        return Ok(true);
      }
      SwapUndone(ensured, layout.artifact, temp, backup, staged);
      SwapUndoneTooLate(ensured, layout.artifact, temp, backup, staged);
      ok := Restore(layout, temp, backup, Some(backup));
      r := Err(if ok then CannotMoveIn else CannotPutBack);
      if !ok { assert met - {temp, backup} == ensured - {layout.artifact}; }
    }

    method EnsureDir(layout: Layout) returns (ok: bool)
      modifies this
      ensures clock == old(clock) + 1 && ok == (old(clock) !in failing)
      ensures dirs == if ok then Ensured(layout, old(dirs)) else old(dirs)
    {
      ok := Attempt();
      if ok {
        dirs := Ensured(layout, dirs);
      }
    }

    method MakeTemp(temp: string) returns (ok: bool)
      modifies this
      ensures clock == old(clock) + 1 && ok == (old(clock) !in failing)
      ensures dirs == if ok then old(dirs)[temp := map[]] else old(dirs)
    {
      ok := Attempt();
      if ok {
        dirs := dirs[temp := map[]];
      }
    }

    /** Write the bundle over an artifact directory that exists. */
    method WriteOver(layout: Layout, files: map<string, string>, meta: CodegenMeta?,
                     temp: string, backup: string, lateMkdir: bool)
      returns (r: Outcome)
      requires layout.artifact in dirs && temp !in dirs && backup !in dirs && temp != backup
      modifies this, if meta == null then {} else {meta}
      ensures old(clock) <= clock
      ensures var last := LastRename(old(clock), old(dirs[layout.artifact]), files, meta != null);
              r == Written(failing, old(clock), last, AllPlain(files), lateMkdir)
      ensures r.Ok? ==>
                && layout.artifact in dirs
                && IsBundle(layout, Staged(old(dirs[layout.artifact]), files, meta != null), meta,
                            dirs[layout.artifact])
      ensures LeftAs(old(dirs), dirs, layout.artifact, temp, backup, r, lateMkdir)
      ensures CleanedUp(failing, old(clock), clock, r) ==> temp !in dirs && backup !in dirs
    {
      ghost var last := LastRename(clock, dirs[layout.artifact], files, meta != null);
      ghost var ensured := dirs;
      var ok := MakeTemp(temp);
      if !ok {
        assert dirs - {temp, backup} == dirs;
        return Err(CannotStage);
      }
      r := Fill(layout, files, meta, temp, backup, lateMkdir, ensured, last);
    }

    /** Stage into the temporary directory and go on from there. */
    method Fill(layout: Layout, files: map<string, string>, meta: CodegenMeta?,
                temp: string, backup: string, lateMkdir: bool, ghost ensured: map<string, Files>, ghost last: nat)
      returns (r: Outcome)
      requires layout.artifact in ensured && temp !in ensured && backup !in ensured && temp != backup
      requires dirs == ensured[temp := map[]]
      requires clock > 0 && last == LastRename(clock - 1, ensured[layout.artifact], files, meta != null)
      modifies this, if meta == null then {} else {meta}
      ensures old(clock) <= clock
      ensures r == Filled(failing, old(clock), last, AllPlain(files), lateMkdir)
      ensures r.Ok? ==>
                && layout.artifact in dirs
                && IsBundle(layout, Staged(ensured[layout.artifact], files, meta != null), meta, dirs[layout.artifact])
      ensures LeftAs(ensured, dirs, layout.artifact, temp, backup, r, lateMkdir)
      ensures CleanedUp(failing, old(clock), clock, r) ==> temp !in dirs && backup !in dirs
    {
      ghost var start, made := clock, dirs;
      ghost var n := StagingOps(dirs[layout.artifact], files, meta != null) + MetaOps(meta != null);
      var staged := Stage(layout, files, meta, temp);
      ghost var mid := clock;
      SameButTwice(ensured, made, dirs, temp);
      r := Finish(layout, temp, backup, lateMkdir, staged, ensured);
      FirstFaultDecides(failing, start, n, AllPlain(files), staged, mid, last, lateMkdir);
      if CleanedUp(failing, start, clock, r) {
        CleanedUpSince(failing, start, n, AllPlain(files), staged, mid, r, clock);
      }
    }

    /** Swap in what was staged, or drop it. */
    method Finish(layout: Layout, temp: string, backup: string, lateMkdir: bool, staged: Outcome,
                  ghost ensured: map<string, Files>)
      returns (r: Outcome)
      requires layout.artifact in ensured && temp !in ensured && backup !in ensured && temp != backup
      requires SameBut(ensured, dirs, temp)
      requires staged.Err? ==> staged.error in {CannotStage, BadName}
      modifies this
      ensures r == if staged.Err? then staged else Swapped(failing, old(clock), lateMkdir)
      ensures LeftAs(ensured, dirs, layout.artifact, temp, backup, r, lateMkdir)
      ensures r.Ok? ==> dirs[layout.artifact] == old(dirs[temp])
      ensures old(clock) <= clock
      ensures (if staged.Err? || r.Ok? then Quiet(failing, old(clock), clock) else OneFault(failing, old(clock), clock))
              ==> temp !in dirs && backup !in dirs
    {
      if staged.Err? {
        NothingMoved(ensured, layout.artifact, temp, backup, dirs[temp], dirs, None);
        var ok := Restore(layout, temp, backup, None);
        return staged;
      }
      r := Swap(layout, temp, backup, lateMkdir, ensured);
    }

    /**
     * Write the whole bundle.  temp and backup are the fresh names the two temporary siblings get.
     * On success the artifact directory is exactly the staged bundle.  On failure it is what it was
     * once it was made sure to exist, unless the last rename was what failed: then it is empty where
     * another rank's mkdir landed in the gap, and missing, with its content under the backup's name,
     * where putting it back failed too.  Nothing else of the parent changes, and a sibling stays only
     * if an operation of the cleanup failed.
     */
    method WriteBundle(layout: Layout, files: map<string, string>, meta: CodegenMeta?,
                       temp: string, backup: string, lateMkdir: bool)
      returns (r: Outcome)
      requires temp !in dirs && backup !in dirs && temp != backup
      requires temp != layout.artifact && backup != layout.artifact
      modifies this, if meta == null then {} else {meta}
      ensures old(clock) <= clock
      ensures var existing := Ensured(layout, old(dirs))[layout.artifact];
              var last := LastRename(old(clock) + 1, existing, files, meta != null);
              EndsBy(failing, old(clock), last, AllPlain(files), lateMkdir, r)
      ensures r == Err(CannotCreateDir) ==> dirs == old(dirs)
      ensures r != Err(CannotCreateDir) ==>
                var ensured := Ensured(layout, old(dirs));
                && (r.Ok? ==>
                     && layout.artifact in dirs
                     && IsBundle(layout, Staged(ensured[layout.artifact], files, meta != null), meta,
                                 dirs[layout.artifact]))
                && LeftAs(ensured, dirs, layout.artifact, temp, backup, r, lateMkdir)
      ensures CleanedUp(failing, old(clock), clock, r) ==> temp !in dirs && backup !in dirs
    {
      ghost var start, existing := clock, Ensured(layout, dirs)[layout.artifact];
      ghost var last := LastRename(clock + 1, existing, files, meta != null);
      var ok := EnsureDir(layout);
      if ok {
        r := WriteOver(layout, files, meta, temp, backup, lateMkdir);
      } else {
        r := Err(CannotCreateDir);
      }
      WhichFaultDecides(failing, start, last, AllPlain(files), lateMkdir, r);
    }
  }

  /** The parent after the old bundle is put back if the new one is not in place, and leftovers dropped. */
  function Restored(dirs: map<string, Files>, artifact: string, temp: string, left: Option<string>)
    : map<string, Files>
  {
    var back :=
      if left.None? || left.value !in dirs then dirs
      else if artifact in dirs then dirs - {left.value}
      else Aside(dirs, left.value, artifact);
    back - {temp}
  }

  /** Whether the cleanup puts the old bundle back. */
  predicate PutsBack(dirs: map<string, Files>, artifact: string, left: Option<string>) {
    left.Some? && left.value in dirs && artifact !in dirs
  }

  /** How the last rename and what follows it end. */
  function Replaced(failing: set<nat>, last: nat, lateMkdir: bool): Outcome {
    if last !in failing then Ok(true)
    else if lateMkdir || last + 1 !in failing then Err(CannotMoveIn)
    else Err(CannotPutBack)
  }

  /** ... and the three operations that move the old bundle aside before it. */
  ghost function Swapped(failing: set<nat>, start: nat, lateMkdir: bool): Outcome {
    if Quiet(failing, start, start + 3) then Replaced(failing, start + 3, lateMkdir) else Err(CannotMoveAside)
  }

  /** How a write over an existing directory ends: the first operation that fails decides. */
  ghost function Written(failing: set<nat>, start: nat, last: nat, plain: bool, lateMkdir: bool): Outcome
    requires 3 <= last
  {
    if start in failing then Err(CannotStage) else Filled(failing, start + 1, last, plain, lateMkdir)
  }

  ghost function Filled(failing: set<nat>, start: nat, last: nat, plain: bool, lateMkdir: bool): Outcome
    requires 3 <= last
  {
    if !plain then Err(BadName)
    else if Quiet(failing, start, last - 3) then Swapped(failing, last - 3, lateMkdir)
    else Err(CannotStage)
  }

  /** How staging ends: a bad name is refused first, then the first operation that fails decides. */
  ghost predicate StagedAs(failing: set<nat>, from: nat, n: nat, plain: bool, r: Outcome, clock: nat) {
    if plain then Ran(failing, from, n, r.Ok?, clock) && (r.Err? ==> r.error == CannotStage)
    else r == Err(BadName) && clock == from
  }

  lemma StagedOn(failing: set<nat>, from: nat, n: nat, plain: bool, bundled: Outcome, mid: nat, m: nat,
                 r: Outcome, clock: nat)
    requires StagedAs(failing, from, n, plain, bundled, mid)
    requires if bundled.Ok? then Ran(failing, mid, m, r.Ok?, clock) else r == bundled && clock == mid
    requires bundled.Ok? && r.Err? ==> r.error == CannotStage
    ensures StagedAs(failing, from, n + m, plain, r, clock)
  {
  }

  lemma FirstFaultDecides(failing: set<nat>, start: nat, n: nat, plain: bool, staged: Outcome, mid: nat,
                          last: nat, lateMkdir: bool)
    requires StagedAs(failing, start, n, plain, staged, mid) && last == start + n + 3
    ensures Filled(failing, start, last, plain, lateMkdir)
            == if staged.Err? then staged else Swapped(failing, mid, lateMkdir)
  {
  }

  lemma CleanedUpSince(failing: set<nat>, start: nat, n: nat, plain: bool, staged: Outcome, mid: nat,
                       r: Outcome, clock: nat)
    requires StagedAs(failing, start, n, plain, staged, mid) && mid <= clock
    requires staged.Err? ==> r == staged
    requires CleanedUp(failing, start, clock, r)
    ensures if staged.Err? || r.Ok? then Quiet(failing, mid, clock) else OneFault(failing, mid, clock)
  {
  }

  /** How a whole write ends, by the operations that fail. */
  ghost predicate EndsBy(failing: set<nat>, start: nat, last: nat, plain: bool, lateMkdir: bool, r: Outcome)
  {
    && (r.Ok? <==> plain && Quiet(failing, start, last + 1))
    && (r == Err(CannotCreateDir) <==> start in failing)
    && (r == Err(BadName) <==> !plain && Quiet(failing, start, start + 2))
    && (r == Err(CannotMoveIn) <==> plain && Quiet(failing, start, last) && last in failing
                                    && (lateMkdir || last + 1 !in failing))
    && (r == Err(CannotPutBack) <==> plain && Quiet(failing, start, last) && last in failing
                                     && !lateMkdir && last + 1 in failing)
  }

  lemma WhichFaultDecides(failing: set<nat>, start: nat, last: nat, plain: bool, lateMkdir: bool,
                          r: Outcome)
    requires start + 4 < last
    requires r == if start in failing then Err(CannotCreateDir) else Written(failing, start + 1, last, plain, lateMkdir)
    ensures EndsBy(failing, start, last, plain, lateMkdir, r)
  {
    assert Quiet(failing, start, start + 2) <==> start !in failing && start + 1 !in failing;
    assert Quiet(failing, start, last) <==>
           start !in failing && start + 1 !in failing && Quiet(failing, start + 2, last - 3)
           && Quiet(failing, last - 3, last);
    assert Quiet(failing, start, last + 1) <==> Quiet(failing, start, last) && last !in failing;
  }

  /** The parent after a write that ended as r, the two siblings left aside. */
  predicate LeftAs(ensured: map<string, Files>, now: map<string, Files>, artifact: string, temp: string, backup: string,
                   r: Outcome, lateMkdir: bool)
    requires artifact in ensured
  {
    var rest := now - {temp, backup};
    if r.Ok? then artifact in now && rest == ensured[artifact := now[artifact]]
    else if r.error == CannotPutBack then
      rest == ensured - {artifact} && backup in now && now[backup] == ensured[artifact]
    else if r.error == CannotMoveIn && lateMkdir then rest == ensured[artifact := map[]]
    else rest == ensured
  }

  /** Whether every operation of the cleanup went well. */
  ghost predicate CleanedUp(failing: set<nat>, from: nat, to: nat, r: Outcome) {
    if r.Ok? || r.error == BadName then Quiet(failing, from, to) else OneFault(failing, from, to)
  }

  /** A complete bundle: what was staged and, where a meta is given, the meta with its digests. */
  ghost predicate IsBundle(layout: Layout, staged: Files, meta: CodegenMeta?, bundle: Files)
    reads if meta == null then {} else {meta}
  {
    if meta == null then bundle == staged
    else RecordedFor(layout, meta.outputs, staged)
         && bundle == staged[META := File(layout.render(meta.signature, meta.outputs))]
  }

  /** One directory renamed to a name that is free. */
  function Aside(dirs: map<string, Files>, from: string, to: string): map<string, Files>
    requires from in dirs
  {
    (dirs - {from})[to := dirs[from]]
  }

  /** What the renames add up to when the last one is done ... */
  lemma SwapDone(dirs: map<string, Files>, artifact: string, temp: string, backup: string, staged: Files,
                 met: map<string, Files>)
    requires artifact in dirs && temp !in dirs && backup !in dirs && temp != backup
    requires met - {artifact} == Aside(dirs[temp := staged], artifact, backup)
    ensures Restored((met - {temp})[artifact := staged] - {backup}, artifact, temp, None) == dirs[artifact := staged]
  {
    var end := (met - {temp})[artifact := staged] - {backup} - {temp};
    forall d | d !in {artifact, temp, backup}
      ensures d in end <==> d in dirs
      ensures d in dirs ==> end[d] == dirs[d]
    {
      assert d in met <==> d in met - {artifact};
    }
  }

  /** ... and when it is not: the old bundle comes back, unless a directory was made in its place. */
  lemma SwapUndone(dirs: map<string, Files>, artifact: string, temp: string, backup: string, staged: Files)
    requires artifact in dirs && temp !in dirs && backup !in dirs && temp != backup
    ensures Restored(Aside(dirs[temp := staged], artifact, backup), artifact, temp, Some(backup)) == dirs
  {
  }

  lemma SwapUndoneTooLate(dirs: map<string, Files>, artifact: string, temp: string, backup: string, staged: Files)
    requires artifact in dirs && temp !in dirs && backup !in dirs && temp != backup
    ensures Restored(Aside(dirs[temp := staged], artifact, backup)[artifact := map[]], artifact, temp, Some(backup))
            == dirs[artifact := map[]]
  {
  }

  lemma NothingMoved(dirs: map<string, Files>, artifact: string, temp: string, backup: string, staged: Files,
                     now: map<string, Files>, left: Option<string>)
    requires artifact in dirs && temp !in dirs && backup !in dirs && temp != backup
    requires left in {None, Some(backup)} && now - {backup} == dirs[temp := staged]
    requires left == None ==> now == dirs[temp := staged]
    ensures Restored(now, artifact, temp, left) == dirs
  {
    assert artifact in now - {backup};
    assert now - {backup} - {temp} == dirs;
    if backup !in now { assert now - {backup} == now; }
  }

  /** The parent once the artifact directory has been made sure to exist. */
  function Ensured(layout: Layout, dirs: map<string, Files>): map<string, Files> {
    if layout.artifact in dirs then dirs else dirs[layout.artifact := map[]]
  }
}
