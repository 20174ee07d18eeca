/** The census cache: one per process in memory, one on disk checked against the sources it ran on. */
module CensusCache {
  import opened Common

  type Key = string
  type Data = string
  type Files = map<string, string>

  /** A file's text with its line endings as Python reads them; its digest stands for it. */
  function Digest(text: string): string {
    if |text| >= 2 && text[0] == '\r' && text[1] == '\n' then ['\n'] + Digest(text[2..])
    else if text == "" then ""
    else [text[0]] + Digest(text[1..])
  }

  function Digests(files: Files, loaded: set<string>): (digests: Files)
    ensures forall f :: f in digests <==> f in files && f in loaded
  {
    map f | f in files && f in loaded :: Digest(files[f])
  }

  /** Line endings do not matter to a digest. */
  function Windows(text: string): string
    requires forall i | 0 <= i < |text| :: text[i] != '\r'
  {
    if text == "" then ""
    else (if text[0] == '\n' then ['\r', '\n'] else [text[0]]) + Windows(text[1..])
  }

  /** A checkout with Windows line endings has the digest of one with Unix ones. */
  lemma {:induction false} DigestOfWindows(text: string)
    requires forall i | 0 <= i < |text| :: text[i] != '\r'
    ensures Digest(Windows(text)) == text
  {
    if text != "" {
      DigestOfWindows(text[1..]);
      var rest := Windows(text[1..]);
      if text[0] == '\n' {
        assert Windows(text)[2..] == rest;
      } else {
        assert Windows(text)[1..] == rest;
      }
    }
  }

  /** What a census yields by key, library versions and digests of source files; none if it is unavailable. */
  datatype World = World(census: (Key, string, Files) -> Option<Data>)

  /** A process: its library versions, the folder it keeps censuses in, the files there are, those it loaded. */
  datatype Process = Process(versions: string, folder: Option<string>, files: Files, loaded: set<string>)

  function AllDigests(p: Process): Files { Digests(p.files, p.files.Keys) }

  function Recomputed(world: World, p: Process, key: Key): Option<Data> {
    world.census(key, p.versions, AllDigests(p))
  }

  ghost predicate AgreesOn(sources: Files, files: Files) {
    forall f | f in sources :: f in files && files[f] == sources[f]
  }

  /** A census is a function of its key, the versions and the files the process that runs it has loaded. */
  ghost predicate Covers(world: World, p: Process, key: Key) {
    forall other: Files | AgreesOn(Digests(p.files, p.loaded), other) ::
      world.census(key, p.versions, other) == Recomputed(world, p, key)
  }

  // ---- the cache as values ------------------------------------------------------------------

  datatype Path = Path(folder: string, key: Key, versions: string)

  datatype Entry = Garbled | Kept(sources: Files, census: Data)

  datatype Store = Store(memory: map<Key, Option<Data>>, disk: map<Path, Entry>)

  /** The census kept on disk, if there is one and no file it ran on has changed. */
  function KeptCensus(disk: map<Path, Entry>, path: Path, files: Files): Option<Data> {
    if path !in disk || disk[path].Garbled? then None
    else if forall f | f in disk[path].sources :: f in files && Digest(files[f]) == disk[path].sources[f]
    then Some(disk[path].census)
    else None
  }

  function CensusFile(p: Process, key: Key): Option<Path> {
    if p.folder.None? then None else Some(Path(p.folder.value, key, p.versions))
  }

  /** The store after a call; the result is what its memory then holds. */
  function Called(world: World, p: Process, s: Store, key: Key, keepFails: bool): (after: Store)
    ensures key in after.memory
  {
    if key in s.memory then s
    else
      var path := CensusFile(p, key);
      var kept := if path.None? then None else KeptCensus(s.disk, path.value, p.files);
      if kept.Some? then s.(memory := s.memory[key := kept])
      else
        var census := Recomputed(world, p, key);
        Store(s.memory[key := census],
              if census.None? || path.None? || keepFails then s.disk
              else s.disk[path.value := Kept(Digests(p.files, p.loaded), census.value)])
  }

  /** A kept census is what any process would recompute while the files it ran on are as they were. */
  ghost predicate DiskInv(world: World, disk: map<Path, Entry>) {
    forall path | path in disk && disk[path].Kept? :: EntryInv(world, path, disk[path])
  }

  ghost predicate EntryInv(world: World, path: Path, entry: Entry)
    requires entry.Kept?
  {
    forall files: Files | AgreesOn(entry.sources, files) ::
      world.census(path.key, path.versions, files) == Some(entry.census)
  }

  ghost predicate MemoryInv(world: World, p: Process, memory: map<Key, Option<Data>>) {
    forall key | key in memory :: memory[key] == Recomputed(world, p, key)
  }

  lemma KeptIsRecomputed(world: World, p: Process, disk: map<Path, Entry>, path: Path)
    requires DiskInv(world, disk) && path.versions == p.versions && KeptCensus(disk, path, p.files).Some?
    ensures KeptCensus(disk, path, p.files) == Recomputed(world, p, path.key)
  {
    assert EntryInv(world, path, disk[path]);
    assert AgreesOn(disk[path].sources, AllDigests(p));
  }

  /** A call keeps the cache right. */
  lemma CallKeepsInv(world: World, p: Process, s: Store, key: Key, keepFails: bool)
    requires DiskInv(world, s.disk) && MemoryInv(world, p, s.memory) && Covers(world, p, key)
    ensures DiskInv(world, Called(world, p, s, key, keepFails).disk)
    ensures MemoryInv(world, p, Called(world, p, s, key, keepFails).memory)
  {
    if key !in s.memory {
      var path := CensusFile(p, key);
      if path.Some? && KeptCensus(s.disk, path.value, p.files).Some? {
        KeptIsRecomputed(world, p, s.disk, path.value);
      } else if path.Some? && Recomputed(world, p, key).Some? {
        assert EntryInv(world, path.value, Kept(Digests(p.files, p.loaded), Recomputed(world, p, key).value));
      }
    }
  }

  // ---- any history -----------------------------------------------------------------------------

  /** A call, a process that starts (with whatever files there are by then), or damage to a kept file. */
  datatype Event = Call(key: Key, keepFails: bool) | Start(process: Process) | Damage(path: Path) | Remove(path: Path)

  datatype State = State(process: Process, store: Store)

  function After(world: World, start: State, events: seq<Event>): State {
    if events == [] then start
    else
      var before := After(world, start, events[..|events| - 1]);
      match events[|events| - 1]
      case Call(key, keepFails) => before.(store := Called(world, before.process, before.store, key, keepFails))
      case Start(process) => State(process, Store(map[], before.store.disk))
      case Damage(path) => before.(store := before.store.(disk := before.store.disk[path := Garbled]))
      case Remove(path) => before.(store := before.store.(disk := before.store.disk - {path}))
  }

  /** Every process that is asked for a census has loaded all that it depends on. */
  ghost predicate Covered(world: World, start: State, events: seq<Event>) {
    forall i | 0 <= i < |events| && events[i].Call? ::
      Covers(world, After(world, start, events[..i]).process, events[i].key)
  }

  lemma {:induction false} HistoryKeepsInv(world: World, start: State, events: seq<Event>)
    requires DiskInv(world, start.store.disk) && MemoryInv(world, start.process, start.store.memory)
    requires Covered(world, start, events)
    ensures DiskInv(world, After(world, start, events).store.disk)
    ensures MemoryInv(world, After(world, start, events).process, After(world, start, events).store.memory)
  {
    if events != [] {
      var n := |events| - 1;
      EarlierIsCovered(world, start, events, n);
      HistoryKeepsInv(world, start, events[..n]);
      var before := After(world, start, events[..n]);
      if events[n].Call? {
        CallKeepsInv(world, before.process, before.store, events[n].key, events[n].keepFails);
      }
    }
  }

  lemma EarlierIsCovered(world: World, start: State, events: seq<Event>, n: nat)
    requires Covered(world, start, events) && n <= |events|
    ensures Covered(world, start, events[..n])
  {
    forall i | 0 <= i < n && events[..n][i].Call?
      ensures Covers(world, After(world, start, events[..n][..i]).process, events[..n][i].key)
    {
      assert events[..n][..i] == events[..i];
      assert events[i].Call?;
    }
  }

  /** Over any history from an empty cache, a call returns what recomputing the census would. */
  lemma CallReturnsRecomputed(world: World, p: Process, events: seq<Event>, key: Key, keepFails: bool)
    requires var start := State(p, Store(map[], map[])); Covered(world, start, events + [Call(key, keepFails)])
    ensures var before := After(world, State(p, Store(map[], map[])), events);
            var after := Called(world, before.process, before.store, key, keepFails);
            after.memory[key] == Recomputed(world, before.process, key)
  {
    var start, all := State(p, Store(map[], map[])), events + [Call(key, keepFails)];
    assert all[..|events|] == events;
    HistoryKeepsInv(world, start, all);
  }

  /** An unavailable census is never kept: a call that finds none leaves the disk as it is. */
  lemma UnavailableIsNotKept(world: World, p: Process, s: Store, key: Key, keepFails: bool)
    requires key !in s.memory && Recomputed(world, p, key).None?
    ensures Called(world, p, s, key, keepFails).disk == s.disk
    ensures DiskInv(world, s.disk) ==> Called(world, p, s, key, keepFails).memory[key].None?
  {
    var path := CensusFile(p, key);
    if path.Some? && KeptCensus(s.disk, path.value, p.files).Some? && DiskInv(world, s.disk) {
      KeptIsRecomputed(world, p, s.disk, path.value);
      assert false;
    }
  }

  // ---- callers that write into what they are given ---------------------------------------------

  /** A call, or a write into the result of an earlier one. */
  datatype Use = Ask(key: Key, keepFails: bool) | Write(result: nat, data: Option<Data>)

  /** The store after the calls alone. */
  function StoreAfter(world: World, p: Process, s: Store, uses: seq<Use>): Store {
    if uses == [] then s
    else
      var before, last := StoreAfter(world, p, s, uses[..|uses| - 1]), uses[|uses| - 1];
      if last.Ask? then Called(world, p, before, last.key, last.keepFails) else before
  }

  /** What the calls return if nothing is written. */
  function Answers(world: World, p: Process, s: Store, uses: seq<Use>): seq<Option<Data>> {
    if uses == [] then []
    else
      var earlier, last := uses[..|uses| - 1], uses[|uses| - 1];
      var answers := Answers(world, p, s, earlier);
      if last.Ask? then answers + [StoreAfter(world, p, s, uses).memory[last.key]] else answers
  }

  /** What recomputing the census for each call would return. */
  function Recomputes(world: World, p: Process, uses: seq<Use>): seq<Option<Data>> {
    if uses == [] then []
    else
      var last := uses[|uses| - 1];
      Recomputes(world, p, uses[..|uses| - 1]) + (if last.Ask? then [Recomputed(world, p, last.key)] else [])
  }

  lemma {:induction false} AnswersAreRecomputed(world: World, p: Process, s: Store, uses: seq<Use>)
    requires DiskInv(world, s.disk) && MemoryInv(world, p, s.memory)
    requires forall u | u in uses && u.Ask? :: Covers(world, p, u.key)
    ensures Answers(world, p, s, uses) == Recomputes(world, p, uses)
    ensures var after := StoreAfter(world, p, s, uses); DiskInv(world, after.disk) && MemoryInv(world, p, after.memory)
  {
    if uses != [] {
      var earlier, last := uses[..|uses| - 1], uses[|uses| - 1];
      AnswersAreRecomputed(world, p, s, earlier);
      if last.Ask? {
        assert last in uses;
        CallKeepsInv(world, p, StoreAfter(world, p, s, earlier), last.key, last.keepFails);
      }
    }
  }

  // ---- the cache in place ------------------------------------------------------------------------

  /** A census as the mutable object callers get. */
  class Record {
    var data: Option<Data>

    constructor (data: Option<Data>)
      ensures this.data == data
    {
      this.data := data;
    }
  }

  class Cache {
    var memory: map<Key, Record>
    var disk: map<Path, Entry>

    constructor ()
      ensures View() == Store(map[], map[])
    {
      memory, disk := map[], map[];
    }

    ghost function View(): Store
      reads this, memory.Values
    {
      Store(map key | key in memory :: memory[key].data, disk)
    }

    method Remember(key: Key, data: Option<Data>)
      modifies this`memory
      ensures key in memory && memory[key].data == data
      ensures View() == Store(old(View()).memory[key := data], disk)
      ensures forall r | r in memory.Values :: r in old(memory.Values) || fresh(r)
    {
      var record := new Record(data);
      memory := memory[key := record];
    }

    /** Read the census from disk, or run it and keep it there. */
    method Fill(world: World, p: Process, key: Key, keepFails: bool)
      requires key !in memory
      modifies this
      ensures View() == Called(world, p, old(View()), key, keepFails)
      ensures forall r | r in memory.Values :: r in old(memory.Values) || fresh(r)
    {
      var path := CensusFile(p, key);
      var kept := None;
      if path.Some? {
        kept := KeptCensus(disk, path.value, p.files);
      }
      if kept.Some? {
        Remember(key, kept);
        return;
      }
      var census := Recomputed(world, p, key);
      Remember(key, census);
      if census.Some? && path.Some? && !keepFails {
        disk := disk[path.value := Kept(Digests(p.files, p.loaded), census.value)];
      }
    }

    /** The census of a key, as a copy of what is remembered. */
    method Census(world: World, p: Process, key: Key, keepFails: bool) returns (result: Record)
      modifies this
      ensures View() == Called(world, p, old(View()), key, keepFails)
      ensures result.data == View().memory[key]
      ensures fresh(result) && result !in memory.Values
      ensures forall r | r in memory.Values :: r in old(memory.Values) || fresh(r)
    {
      if key !in memory {
        Fill(world, p, key, keepFails);
      }
      assert key in View().memory;
      result := new Record(memory[key].data);
    }

    /**
     * Callers that ask and write into what they were given, in any order: every call returns, and the
     * cache holds, what it would if nothing had been written.
     */
    method Session(world: World, p: Process, uses: seq<Use>) returns (answers: seq<Option<Data>>)
      modifies this
      ensures View() == StoreAfter(world, p, old(View()), uses)
      ensures answers == Answers(world, p, old(View()), uses)
    {
      ghost var start := View();
      var results: seq<Record> := [];
      answers := [];
      for i := 0 to |uses|
        invariant forall r | r in results :: fresh(r) && r !in memory.Values
        invariant View() == StoreAfter(world, p, start, uses[..i])
        invariant answers == Answers(world, p, start, uses[..i])
      {
        assert uses[..i + 1][..i] == uses[..i];
        match uses[i] {
          case Ask(key, keepFails) =>
            var result := Census(world, p, key, keepFails);
            answers, results := answers + [result.data], results + [result];
          case Write(which, data) =>
            if which < |results| {
              ghost var before := View();
              assert results[which] in results;
              results[which].data := data;
              assert View() == before;
            }
        }
      }
      assert uses[..|uses|] == uses;
    }
  }
}
