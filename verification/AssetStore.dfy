/** The content-addressed asset store: any number of `put` and `read` calls over one
    file system. Every call is a thread that performs one file-system call per step,
    in any interleaving; a crash is a thread that takes no further step, so it may
    fall between any two calls and in the middle of a file write. Directory entries
    point at inodes, so that a hard link shares its content with the temporary file. */
module AssetStore {
  import opened Numbers
  import opened Strings
  import opened Wrappers

  type Bytes = seq<int>

  /** What `put` stores beside the bytes; `manifest` stands for the fields the store never reads. */
  datatype Record = Record(id: string, hash: string, byteLength: int, storageKey: string,
                           originalFilename: Option<string>, manifest: string)

  /** The functions the store calls: SHA-256 of bytes and of an asset id, JSON printing
      and parsing of a record, and the validators of the contracts package. */
  datatype Env = Env(digest: Bytes -> string, idKey: string -> string,
                     show: Record -> Bytes, parse: Bytes -> Option<Record>,
                     validManifest: Record -> bool, validId: string -> bool)

  const MAX_FILENAME_CHARS := 1024

  /** validateRecord. */
  predicate ValidRecord(env: Env, r: Record) {
    && env.validManifest(r)
    && 1 <= r.byteLength <= MAX_SAFE_INTEGER
    && r.storageKey == "sha256:" + r.hash
    && (r.originalFilename.Some? ==>
          1 <= Utf16Length(r.originalFilename.value) <= MAX_FILENAME_CHARS
          && forall c | c in r.originalFilename.value :: c >= ' ' && c != '\U{7f}')
  }

  /** Digests are hexadecimal and a valid record survives printing and parsing. */
  ghost predicate EnvOk(env: Env) {
    && (forall b :: IsLowerHash(env.digest(b)))
    && (forall id :: IsLowerHash(env.idKey(id)))
    && (forall r :: ValidRecord(env, r) ==> env.parse(env.show(r)) == Some(r))
  }

  // ----- names and the disk

  datatype Name = Object(hash: string) | Registry(key: string, hash: string) | Temp(target: Name, nonce: string)

  /** The path segments below the storage root. */
  function Path(n: Name): (p: seq<string>)
    requires NameOk(n)
    ensures |p| >= 3
  {
    match n
    case Object(hash) => ["objects", hash[..2], hash]
    case Registry(key, hash) => ["registry", key[..2], key, hash + ".json"]
    case Temp(target, nonce) =>
      var p := Path(target);
      p[..|p| - 1] + [p[|p| - 1] + ".tmp-" + nonce]
  }

  /** Names the store forms: a temporary file belongs to an object or a registry record. */
  predicate NameOk(n: Name) {
    match n
    case Object(hash) => IsLowerHash(hash)
    case Registry(key, hash) => IsLowerHash(key) && IsLowerHash(hash)
    case Temp(target, _) => !target.Temp? && NameOk(target)
  }

  /** The published name that a name is, or is the temporary file of. */
  function Base(n: Name): (t: Name)
    requires NameOk(n)
    ensures NameOk(t) && !t.Temp?
  {
    if n.Temp? then n.target else n
  }

  function Suffix(n: Name): string {
    if n.Temp? then ".tmp-" + n.nonce else ""
  }

  function FileName(n: Name): string
    requires NameOk(n)
  {
    Path(n)[|Path(n)| - 1]
  }

  lemma PathShape(n: Name)
    requires NameOk(n)
    ensures var p, q := Path(n), Path(Base(n));
            && |p| == |q| && p[..|p| - 1] == q[..|q| - 1] && FileName(n) == FileName(Base(n)) + Suffix(n)
            && p[0] == (if Base(n).Object? then "objects" else "registry")
            && |FileName(Base(n))| == if Base(n).Object? then 64 else 69
  {
  }

  lemma BasesAreDistinct(m: Name, n: Name)
    requires NameOk(m) && NameOk(n) && !m.Temp? && !n.Temp? && Path(m) == Path(n)
    ensures m == n
  {
    var p, q := Path(m), Path(n);
    assert p[0] == q[0] && p[2] == q[2];
    if m.Registry? {
      assert p[3] == m.hash + ".json" && q[3] == n.hash + ".json" && p[3][..64] == m.hash && q[3][..64] == n.hash;
    }
  }

  /** Different names are different paths: no temporary file ever collides with a
      published one, and no object with a registry record. */
  lemma PathsAreDistinct(m: Name, n: Name)
    requires NameOk(m) && NameOk(n) && Path(m) == Path(n)
    ensures m == n
  {
    hide Path, Base, Suffix;
    PathShape(m);
    PathShape(n);
    SameCut(FileName(Base(m)), Suffix(m), FileName(Base(n)), Suffix(n));
    SamePath(Base(m), Base(n));
    BasesAreDistinct(Base(m), Base(n));
    SameName(m, n);
  }

  lemma SameCut(a: string, x: string, b: string, y: string)
    requires a + x == b + y && |a| == |b|
    ensures a == b && x == y
  {
    assert a == (a + x)[..|a|] && x == (a + x)[|a|..];
    assert b == (b + y)[..|b|] && y == (b + y)[|b|..];
  }

  lemma SamePath(m: Name, n: Name)
    requires NameOk(m) && NameOk(n) && FileName(m) == FileName(n)
    requires |Path(m)| == |Path(n)| && Path(m)[..|Path(m)| - 1] == Path(n)[..|Path(n)| - 1]
    ensures Path(m) == Path(n)
  {
    hide Path;
    var p, q := Path(m), Path(n);
    assert p == p[..|p| - 1] + [FileName(m)] && q == q[..|q| - 1] + [FileName(n)];
  }

  lemma SameName(m: Name, n: Name)
    requires NameOk(m) && NameOk(n) && Base(m) == Base(n) && Suffix(m) == Suffix(n)
    ensures m == n
  {
    if m.Temp? && n.Temp? { assert m.nonce == Suffix(m)[5..] && n.nonce == Suffix(n)[5..]; }
  }

  datatype Disk = Disk(entries: map<Name, nat>, inodes: seq<Bytes>)

  /** The content found under a name. */
  function Content(d: Disk, n: Name): Bytes
    requires EntriesOk(d) && n in d.entries
  {
    d.inodes[d.entries[n]]
  }

  predicate EntriesOk(d: Disk) {
    forall n | n in d.entries :: d.entries[n] < |d.inodes|
  }

  /** The file-system calls that change the disk. */
  datatype Effect =
    | NoEffect
    | Create(name: Name)
    | Write(inode: nat, content: Bytes)
    | Link(name: Name, inode: nat)
    | Unlink(name: Name)

  function Apply(d: Disk, e: Effect): Disk {
    match e
    case NoEffect => d
    case Create(name) => Disk(d.entries[name := |d.inodes|], d.inodes + [[]])
    case Write(inode, content) => if inode < |d.inodes| then d.(inodes := d.inodes[inode := content]) else d
    case Link(name, inode) => d.(entries := d.entries[name := inode])
    case Unlink(name) => d.(entries := d.entries - {name})
  }

  // ----- threads

  datatype Error = StorageIntegrity | InvalidRequest | NotFoundRecord | NotFoundObject
                 | CorruptJson | CorruptRecord | CorruptIdentity | CorruptBytes | IoError

  datatype Phase = ObjectPhase | RegistryPhase

  datatype PutPc =
    | Start
    | Probe
    | VerifyFirst
    | CreateTemp
    | Writing(nonce: string, inode: nat, written: nat)
    | Linking(nonce: string, inode: nat)
    | VerifyRaced(nonce: string, inode: nat)
    | Unlinking(nonce: string, inode: nat, failure: Option<Error>)
    | PutDone
    | PutFailed(error: Error)

  datatype ReadPc =
    | ReadStart
    | ReadRecord
    | ReadObject(record: Record)
    | ReadDone(record: Record, bytes: Bytes)
    | ReadFailed(error: Error)

  datatype Thread =
    | Put(record: Record, bytes: Bytes, phase: Phase, pc: PutPc)
    | Read(id: string, hash: string, at: ReadPc)

  /** What the environment decides in one step: the random suffix, how much of a file is
      written at once, and whether the call fails with some other error. */
  datatype Choice = Choice(nonce: string, chunk: nat, fault: bool)

  function Target(env: Env, t: Thread): Name
    requires t.Put?
  {
    if t.phase.ObjectPhase? then Object(t.record.hash) else Registry(env.idKey(t.record.id), t.record.hash)
  }

  function Payload(env: Env, t: Thread): Bytes
    requires t.Put?
  {
    if t.phase.ObjectPhase? then t.bytes else env.show(t.record)
  }

  /** The `verifyExisting` callbacks of the two phases. */
  predicate Verifies(env: Env, t: Thread, content: Bytes)
    requires t.Put?
  {
    if t.phase.ObjectPhase? then |content| == t.record.byteLength && env.digest(content) == t.record.hash
    else content == env.show(t.record)
  }

  function NextPhase(env: Env, t: Thread): Thread
    requires t.Put?
  {
    if t.phase.RegistryPhase? then t.(pc := PutDone)
    else if !env.validId(t.record.id) then t.(pc := PutFailed(InvalidRequest))
    else t.(phase := RegistryPhase, pc := Probe)
  }

  /** One step of `put`, which runs `publishImmutable` for the object and then for the record. */
  function PutStep(env: Env, d: Disk, t: Thread, c: Choice): (Effect, Thread)
    requires t.Put? && EntriesOk(d)
  {
    var target := Target(env, t);
    match t.pc
    case Start =>
      if !ValidRecord(env, t.record) || env.digest(t.bytes) != t.record.hash || |t.bytes| != t.record.byteLength
      then (NoEffect, t.(pc := PutFailed(StorageIntegrity)))
      else (NoEffect, t.(phase := ObjectPhase, pc := Probe))
    case Probe =>
      if c.fault then (NoEffect, t.(pc := PutFailed(IoError)))
      else (NoEffect, t.(pc := if target in d.entries then VerifyFirst else CreateTemp))
    case VerifyFirst =>
      if c.fault then (NoEffect, t.(pc := PutFailed(IoError)))
      else if target !in d.entries then (NoEffect, t.(pc := CreateTemp))
      else if Verifies(env, t, Content(d, target)) then (NoEffect, NextPhase(env, t))
      else (NoEffect, t.(pc := PutFailed(StorageIntegrity)))
    case CreateTemp =>
      var temp := Temp(target, c.nonce);
      if c.fault || temp in d.entries then (NoEffect, t.(pc := PutFailed(IoError)))
      else (Create(temp), t.(pc := Writing(c.nonce, |d.inodes|, 0)))
    case Writing(nonce, inode, written) =>
      var payload := Payload(env, t);
      if c.fault then (NoEffect, t.(pc := PutFailed(IoError)))
      else if written >= |payload| then (NoEffect, t.(pc := Linking(nonce, inode)))
      else
        var next := if written + 1 + c.chunk <= |payload| then written + 1 + c.chunk else |payload|;
        (Write(inode, payload[..next]), t.(pc := Writing(nonce, inode, next)))
    case Linking(nonce, inode) =>
      if c.fault || Temp(target, nonce) !in d.entries then (NoEffect, t.(pc := Unlinking(nonce, inode, Some(IoError))))
      else if target in d.entries then (NoEffect, t.(pc := VerifyRaced(nonce, inode)))
      else (Link(target, d.entries[Temp(target, nonce)]), t.(pc := Unlinking(nonce, inode, None)))
    case VerifyRaced(nonce, inode) =>
      if c.fault || target !in d.entries then (NoEffect, t.(pc := Unlinking(nonce, inode, Some(IoError))))
      else if Verifies(env, t, Content(d, target)) then (NoEffect, t.(pc := Unlinking(nonce, inode, None)))
      else (NoEffect, t.(pc := Unlinking(nonce, inode, Some(StorageIntegrity))))
    case Unlinking(nonce, inode, failure) =>
      if c.fault then (NoEffect, t.(pc := PutFailed(IoError)))
      else (Unlink(Temp(target, nonce)), if failure.Some? then t.(pc := PutFailed(failure.value))
          else NextPhase(env, t))
    case PutDone => (NoEffect, t)
    case PutFailed(_) => (NoEffect, t)
  }

  /** One step of `read`. */
  function ReadStep(env: Env, d: Disk, t: Thread, c: Choice): Thread
    requires t.Read? && EntriesOk(d)
  {
    match t.at
    case ReadStart =>
      t.(at := if env.validId(t.id) && IsLowerHash(t.hash) then ReadRecord else ReadFailed(InvalidRequest))
    case ReadRecord =>
      var name := Registry(env.idKey(t.id), t.hash);
      if c.fault then t.(at := ReadFailed(IoError))
      else if name !in d.entries then t.(at := ReadFailed(NotFoundRecord))
      else
        var parsed := env.parse(Content(d, name));
        t.(at := if parsed.None? then ReadFailed(CorruptJson)
                 else if !ValidRecord(env, parsed.value) then ReadFailed(CorruptRecord)
                 else if parsed.value.id != t.id || parsed.value.hash != t.hash then ReadFailed(CorruptIdentity)
                 else ReadObject(parsed.value))
    case ReadObject(r) =>
      if c.fault then t.(at := ReadFailed(IoError))
      else if Object(t.hash) !in d.entries then t.(at := ReadFailed(NotFoundObject))
      else
        var bytes := Content(d, Object(t.hash));
        t.(at := if |bytes| != r.byteLength || env.digest(bytes) != t.hash then ReadFailed(CorruptBytes)
                 else ReadDone(r, bytes))
    case ReadDone(_, _) => t
    case ReadFailed(_) => t
  }

  function ThreadStep(env: Env, d: Disk, t: Thread, c: Choice): (Effect, Thread)
    requires EntriesOk(d)
  {
    if t.Put? then PutStep(env, d, t, c) else (NoEffect, ReadStep(env, d, t, c))
  }

  // ----- runs

  datatype State = State(disk: Disk, threads: map<nat, Thread>)

  datatype Event = Event(thread: nat, choice: Choice)

  function Step(env: Env, s: State, e: Event): State
    requires EntriesOk(s.disk)
  {
    if e.thread !in s.threads then s
    else
      var (effect, t) := ThreadStep(env, s.disk, s.threads[e.thread], e.choice);
      State(Apply(s.disk, effect), s.threads[e.thread := t])
  }

  /** The state after a sequence of steps, taken by any threads in any order. */
  ghost function Exec(env: Env, s: State, events: seq<Event>): State
    requires EnvOk(env) && Inv(env, s)
    decreases |events|
  {
    if events == [] then s
    else
      StepInv(env, s, events[0]);
      Exec(env, Step(env, s, events[0]), events[1..])
  }

  ghost predicate Init(s: State) {
    && s.disk == Disk(map[], [])
    && forall i | i in s.threads ::
         (s.threads[i].Put? && s.threads[i].pc.Start?) || (s.threads[i].Read? && s.threads[i].at.ReadStart?)
  }

  // ----- the invariant

  /** Every object has the digest it is named after; every registry record is complete,
      valid, named after its asset and hash, and has its object on the disk. */
  ghost predicate DiskOk(env: Env, d: Disk) {
    && EntriesOk(d)
    && (forall h | Object(h) in d.entries :: env.digest(Content(d, Object(h))) == h)
    && (forall k, h | Registry(k, h) in d.entries :: RecordOk(env, d, k, h))
  }

  ghost predicate RecordOk(env: Env, d: Disk, k: string, h: string)
    requires EntriesOk(d) && Registry(k, h) in d.entries
  {
    var parsed := env.parse(Content(d, Registry(k, h)));
    && parsed.Some?
    && ValidRecord(env, parsed.value)
    && env.show(parsed.value) == Content(d, Registry(k, h))
    && env.idKey(parsed.value.id) == k && parsed.value.hash == h
    && HasObject(env, d, parsed.value)
  }

  ghost predicate HasObject(env: Env, d: Disk, r: Record)
    requires EntriesOk(d)
  {
    Object(r.hash) in d.entries && |Content(d, Object(r.hash))| == r.byteLength
  }

  /** The record and its object are published. */
  ghost predicate Published(env: Env, d: Disk, r: Record)
    requires EntriesOk(d)
  {
    && Registry(env.idKey(r.id), r.hash) in d.entries
    && Content(d, Registry(env.idKey(r.id), r.hash)) == env.show(r)
    && HasObject(env, d, r)
  }

  predicate HasTemp(t: Thread) {
    t.Put? && (t.pc.Writing? || t.pc.Linking? || t.pc.VerifyRaced? || t.pc.Unlinking?)
  }

  function TempName(env: Env, t: Thread): Name
    requires HasTemp(t)
  {
    Temp(Target(env, t), t.pc.nonce)
  }

  /** The arguments pass the checks with which `put` begins. */
  predicate Accepted(env: Env, t: Thread)
    requires t.Put?
  {
    ValidRecord(env, t.record) && env.digest(t.bytes) == t.record.hash && |t.bytes| == t.record.byteLength
  }

  /** Something else stands where the object or the registry record should be. */
  ghost predicate Clash(env: Env, d: Disk, t: Thread)
    requires EntriesOk(d) && t.Put?
  {
    || (Object(t.record.hash) in d.entries && |Content(d, Object(t.record.hash))| != t.record.byteLength)
    || (Registry(env.idKey(t.record.id), t.record.hash) in d.entries
        && Content(d, Registry(env.idKey(t.record.id), t.record.hash)) != env.show(t.record))
  }

  /** A put that failed, or is about to, has a reason on the disk or in its arguments. */
  ghost predicate FailureOk(env: Env, d: Disk, t: Thread)
    requires EntriesOk(d) && t.Put?
  {
    && (t.pc.Unlinking? && t.pc.failure.Some? ==> t.pc.failure.value in {IoError, StorageIntegrity})
    && (t.pc.Unlinking? && t.pc.failure == Some(StorageIntegrity) ==> Clash(env, d, t))
    && (t.pc.PutFailed? ==> t.pc.error in {IoError, InvalidRequest, StorageIntegrity})
    && (t.pc.PutFailed? && t.pc.error.StorageIntegrity? && Accepted(env, t) ==> Clash(env, d, t))
    && (t.pc.PutFailed? && t.pc.error.InvalidRequest? ==> !env.validId(t.record.id))
  }

  ghost predicate PutOk(env: Env, d: Disk, t: Thread)
    requires EntriesOk(d) && t.Put?
  {
    && FailureOk(env, d, t)
    && (!t.pc.Start? && !t.pc.PutFailed? ==>
          && Accepted(env, t)
          && (t.phase.RegistryPhase? ==> env.validId(t.record.id) && HasObject(env, d, t.record)))
    && (HasTemp(t) ==> TempName(env, t) in d.entries && d.entries[TempName(env, t)] == t.pc.inode)
    && (t.pc.Writing? || t.pc.Linking? ==>
          && (forall n | n in d.entries && d.entries[n] == t.pc.inode :: n == TempName(env, t))
          && var written := if t.pc.Writing? then t.pc.written else |Payload(env, t)|;
             written <= |Payload(env, t)| && Content(d, TempName(env, t)) == Payload(env, t)[..written])
    && (t.pc.VerifyRaced? ==> Target(env, t) in d.entries)
    && (t.pc.Unlinking? && t.pc.failure.None?
        ==> Target(env, t) in d.entries && Verifies(env, t, Content(d, Target(env, t))))
    && (t.pc.PutDone? ==> t.phase.RegistryPhase? && Published(env, d, t.record))
  }

  ghost predicate ReadOk(env: Env, d: Disk, t: Thread)
    requires EntriesOk(d) && t.Read?
  {
    match t.at
    case ReadObject(r) => ValidRecord(env, r) && r.id == t.id && r.hash == t.hash && Published(env, d, r)
    case ReadDone(r, b) => r.id == t.id && r.hash == t.hash && Published(env, d, r) && env.digest(b) == t.hash
        && |b| == r.byteLength
    case ReadFailed(e) =>
      || e == InvalidRequest || e == NotFoundRecord || e == IoError
      || (e == CorruptIdentity
          && exists r: Record ::
               r.id != t.id && env.idKey(r.id) == env.idKey(t.id) && r.hash == t.hash && Published(env, d, r))
    case _ => true
  }

  ghost predicate ThreadOk(env: Env, d: Disk, t: Thread)
    requires EntriesOk(d)
  {
    if t.Put? then PutOk(env, d, t) else ReadOk(env, d, t)
  }

  /** No two threads write the same file. */
  ghost predicate Apart(t: Thread, u: Thread) {
    HasTemp(t) && HasTemp(u) ==> t.pc.inode != u.pc.inode
  }

  ghost predicate Inv(env: Env, s: State) {
    && DiskOk(env, s.disk)
    && (forall i | i in s.threads :: ThreadOk(env, s.disk, s.threads[i]))
    && (forall i, j | i in s.threads && j in s.threads && i != j :: Apart(s.threads[i], s.threads[j]))
  }

  /** Everything published on one disk is on the other, with the same content. */
  ghost predicate Extends(d: Disk, d': Disk) {
    && EntriesOk(d) && EntriesOk(d')
    && forall n | n in d.entries && !n.Temp? :: n in d'.entries && Content(d', n) == Content(d, n)
  }

  // ----- every step keeps the invariant

  lemma SamePublished(env: Env, d: Disk, d': Disk)
    requires DiskOk(env, d) && Extends(d, d')
    requires forall n | n in d'.entries && !n.Temp? :: n in d.entries
    ensures DiskOk(env, d')
  {
    forall k, h | Registry(k, h) in d'.entries ensures RecordOk(env, d', k, h) {
      assert RecordOk(env, d, k, h);
    }
  }

  /** Publishing a finished file: its content is the whole payload. */
  lemma LinkDisk(env: Env, d: Disk, t: Thread)
    requires EnvOk(env) && DiskOk(env, d) && t.Put? && PutOk(env, d, t) && t.pc.Linking?
    requires Target(env, t) !in d.entries
    ensures var d' := Apply(d, Link(Target(env, t), t.pc.inode));
            DiskOk(env, d') && Extends(d, d') && Verifies(env, t, Content(d', Target(env, t)))
  {
    var target := Target(env, t);
    var d' := Apply(d, Link(target, t.pc.inode));
    assert Content(d', target) == Payload(env, t)[..|Payload(env, t)|] == Payload(env, t);
    assert Extends(d, d');
    forall k, h | Registry(k, h) in d'.entries ensures RecordOk(env, d', k, h) {
      if Registry(k, h) in d.entries { assert RecordOk(env, d, k, h); }
    }
  }

  lemma StepDisk(env: Env, d: Disk, t: Thread, c: Choice)
    requires EnvOk(env) && DiskOk(env, d) && ThreadOk(env, d, t)
    ensures var d' := Apply(d, ThreadStep(env, d, t, c).0);
            DiskOk(env, d') && Extends(d, d')
  {
    hide RecordOk;
    var e := ThreadStep(env, d, t, c).0;
    if e.Link? {
      LinkDisk(env, d, t);
    } else {
      SamePublished(env, d, Apply(d, e));
    }
  }

  /** Facts about published names carry over to a disk that extends this one. */
  lemma StableFacts(env: Env, d: Disk, d': Disk, r: Record)
    requires Extends(d, d')
    ensures HasObject(env, d, r) ==> HasObject(env, d', r)
    ensures Published(env, d, r) ==> Published(env, d', r)
  {
  }

  lemma ReadStable(env: Env, d: Disk, d': Disk, u: Thread)
    requires Extends(d, d') && u.Read? && ReadOk(env, d, u)
    ensures ReadOk(env, d', u)
  {
    forall r | Published(env, d, r) ensures Published(env, d', r) { StableFacts(env, d, d', r); }
  }

  lemma PutStable(env: Env, d: Disk, d': Disk, u: Thread)
    requires Extends(d, d') && u.Put? && PutOk(env, d, u)
    requires HasTemp(u) ==> TempName(env, u) in d'.entries && d'.entries[TempName(env, u)] == u.pc.inode
    requires u.pc.Writing? || u.pc.Linking? ==>
               && Content(d', TempName(env, u)) == Content(d, TempName(env, u))
               && forall n | n in d'.entries && d'.entries[n] == u.pc.inode :: n == TempName(env, u)
    ensures PutOk(env, d', u)
  {
    StableFacts(env, d, d', u.record);
  }

  /** What a thread may do to the disk: add a fresh name or a fresh file, write the file
      it is writing, publish the file it finished, or drop its own temporary name. */
  ghost predicate OwnEffect(env: Env, d: Disk, t: Thread, e: Effect) {
    match e
    case NoEffect => true
    case Create(name) => name !in d.entries
    case Write(inode, _) => HasTemp(t) && inode == t.pc.inode
    case Link(name, inode) => HasTemp(t) && inode == t.pc.inode && !name.Temp?
    case Unlink(name) => HasTemp(t) && name in d.entries && d.entries[name] == t.pc.inode
  }

  lemma StepOwn(env: Env, d: Disk, t: Thread, c: Choice)
    requires EntriesOk(d) && ThreadOk(env, d, t)
    ensures var (e, t') := ThreadStep(env, d, t, c);
            && OwnEffect(env, d, t, e)
            && (HasTemp(t') ==> (HasTemp(t) && t'.pc.inode == t.pc.inode) || t'.pc.inode == |d.inodes|)
  {
  }

  lemma PutUndisturbed(env: Env, d: Disk, t: Thread, e: Effect, u: Thread)
    requires EntriesOk(d) && u.Put? && PutOk(env, d, u) && Apart(t, u)
    requires OwnEffect(env, d, t, e) && Extends(d, Apply(d, e))
    ensures PutOk(env, Apply(d, e), u)
  {
    PutStable(env, d, Apply(d, e), u);
  }

  lemma StepOther(env: Env, d: Disk, t: Thread, c: Choice, u: Thread)
    requires EnvOk(env) && DiskOk(env, d) && ThreadOk(env, d, t) && ThreadOk(env, d, u) && Apart(t, u)
    ensures var (e, t') := ThreadStep(env, d, t, c);
            EntriesOk(Apply(d, e)) && ThreadOk(env, Apply(d, e), u) && Apart(t', u)
  {
    hide PutStep, ReadStep, DiskOk, ReadOk;
    StepDisk(env, d, t, c);
    StepOwn(env, d, t, c);
    var (e, t') := ThreadStep(env, d, t, c);
    if u.Read? {
      ReadStable(env, d, Apply(d, e), u);
    } else {
      PutUndisturbed(env, d, t, e, u);
    }
  }

  lemma ReadSelf(env: Env, d: Disk, t: Thread, c: Choice)
    requires EnvOk(env) && DiskOk(env, d) && t.Read? && ReadOk(env, d, t)
    ensures ReadOk(env, d, ReadStep(env, d, t, c))
  {
    if t.at.ReadRecord? && Registry(env.idKey(t.id), t.hash) in d.entries {
      assert RecordOk(env, d, env.idKey(t.id), t.hash);
    }
  }

  lemma NextPhaseOk(env: Env, d: Disk, t: Thread)
    requires t.Put? && EntriesOk(d)
    requires Accepted(env, t)
    requires t.phase.RegistryPhase? ==> env.validId(t.record.id) && HasObject(env, d, t.record)
    requires Target(env, t) in d.entries && Verifies(env, t, Content(d, Target(env, t)))
    ensures PutOk(env, d, NextPhase(env, t)) && !HasTemp(NextPhase(env, t))
  {
  }

  /** What does not verify is something else than what was to be published. */
  lemma ClashSeen(env: Env, d: Disk, t: Thread)
    requires DiskOk(env, d) && t.Put? && Target(env, t) in d.entries
    ensures Verifies(env, t, Content(d, Target(env, t))) || Clash(env, d, t)
  {
  }

  /** The steps before a file exists and after it is gone. */
  lemma PutSelfOutside(env: Env, d: Disk, t: Thread, c: Choice)
    requires EnvOk(env) && DiskOk(env, d) && t.Put? && PutOk(env, d, t)
    requires !HasTemp(t) && !t.pc.CreateTemp?
    ensures PutStep(env, d, t, c).0.NoEffect? && PutOk(env, d, PutStep(env, d, t, c).1)
  {
    if t.pc.VerifyFirst? && !c.fault && Target(env, t) in d.entries && Verifies(env, t, Content(d, Target(env, t))) {
      NextPhaseOk(env, d, t);
    }
  }

  /** The step that creates the file. */
  lemma PutSelfCreating(env: Env, d: Disk, t: Thread, c: Choice)
    requires EnvOk(env) && DiskOk(env, d) && t.Put? && PutOk(env, d, t) && t.pc.CreateTemp?
    ensures var (e, t') := PutStep(env, d, t, c);
            EntriesOk(Apply(d, e)) && PutOk(env, Apply(d, e), t')
  {
    StepDisk(env, d, t, c);
    hide DiskOk, EnvOk, ValidRecord;
    StableFacts(env, d, Apply(d, PutStep(env, d, t, c).0), t.record);
  }

  /** One write: a longer prefix of the payload, or the end of the file. */
  lemma WritingStep(env: Env, d: Disk, t: Thread, c: Choice)
    requires EntriesOk(d) && t.Put? && PutOk(env, d, t) && t.pc.Writing?
    ensures var (e, t') := PutStep(env, d, t, c);
            var payload := Payload(env, t);
            || (e.NoEffect? && t' == t.(pc := PutFailed(IoError)))
            || (e.NoEffect? && t.pc.written == |payload| && t' == t.(pc := Linking(t.pc.nonce, t.pc.inode)))
            || (e.Write? && t'.Put? && t'.pc.Writing? && t'.pc.written <= |payload|
                && e == Write(t.pc.inode, payload[..t'.pc.written]) && t' == t.(pc := t.pc.(written := t'.pc.written)))
  {
    hide DiskOk, EnvOk, ValidRecord, Clash;
  }

  /** The steps that write the file. */
  lemma PutSelfWriting(env: Env, d: Disk, t: Thread, c: Choice)
    requires EnvOk(env) && DiskOk(env, d) && t.Put? && PutOk(env, d, t) && t.pc.Writing?
    ensures var (e, t') := PutStep(env, d, t, c);
            EntriesOk(Apply(d, e)) && PutOk(env, Apply(d, e), t')
  {
    StepDisk(env, d, t, c);
    WritingStep(env, d, t, c);
    hide DiskOk, EnvOk, ValidRecord, Clash, Verifies, PutStep, Published;
    StableFacts(env, d, Apply(d, PutStep(env, d, t, c).0), t.record);
    assert Payload(env, t)[..|Payload(env, t)|] == Payload(env, t);
  }

  lemma LinkingStep(env: Env, d: Disk, t: Thread, c: Choice)
    requires EntriesOk(d) && t.Put? && PutOk(env, d, t) && t.pc.Linking?
    ensures var (e, t') := PutStep(env, d, t, c);
            var (nonce, inode) := (t.pc.nonce, t.pc.inode);
            || (e.NoEffect? && t' == t.(pc := Unlinking(nonce, inode, Some(IoError))))
            || (e.NoEffect? && Target(env, t) in d.entries && t' == t.(pc := VerifyRaced(nonce, inode)))
            || (e == Link(Target(env, t), inode) && Target(env, t) !in d.entries
                && t' == t.(pc := Unlinking(nonce, inode, None)))
  {
    hide DiskOk, EnvOk, ValidRecord, Clash;
  }

  /** The step that publishes the file. */
  lemma PutSelfLinking(env: Env, d: Disk, t: Thread, c: Choice)
    requires EnvOk(env) && DiskOk(env, d) && t.Put? && PutOk(env, d, t) && t.pc.Linking?
    ensures var (e, t') := PutStep(env, d, t, c);
            EntriesOk(Apply(d, e)) && PutOk(env, Apply(d, e), t')
  {
    StepDisk(env, d, t, c);
    LinkingStep(env, d, t, c);
    hide DiskOk, EnvOk, ValidRecord, Clash, Payload, Verifies, Published, HasObject, PutStep;
    if PutStep(env, d, t, c).0.Link? { LinkDisk(env, d, t); }
    StableFacts(env, d, Apply(d, PutStep(env, d, t, c).0), t.record);
  }

  /** The step that checks a lost race. */
  lemma PutSelfRaced(env: Env, d: Disk, t: Thread, c: Choice)
    requires EnvOk(env) && DiskOk(env, d) && t.Put? && PutOk(env, d, t) && t.pc.VerifyRaced?
    ensures PutStep(env, d, t, c).0.NoEffect? && PutOk(env, d, PutStep(env, d, t, c).1)
  {
    ClashSeen(env, d, t);
    hide DiskOk, EnvOk, ValidRecord, Verifies, Published, Clash;
  }

  /** The step that removes the temporary name. */
  lemma PutSelfUnlinking(env: Env, d: Disk, t: Thread, c: Choice)
    requires EnvOk(env) && DiskOk(env, d) && t.Put? && PutOk(env, d, t) && t.pc.Unlinking?
    ensures var (e, t') := PutStep(env, d, t, c);
            EntriesOk(Apply(d, e)) && PutOk(env, Apply(d, e), t')
  {
    var d' := Apply(d, PutStep(env, d, t, c).0);
    StepDisk(env, d, t, c);
    hide DiskOk, EnvOk, ValidRecord, Verifies, Published;
    StableFacts(env, d, d', t.record);
    if !c.fault && t.pc.failure.None? { NextPhaseOk(env, d', t); }
  }

  lemma PutSelf(env: Env, d: Disk, t: Thread, c: Choice)
    requires EnvOk(env) && DiskOk(env, d) && t.Put? && PutOk(env, d, t)
    ensures var (e, t') := PutStep(env, d, t, c);
            EntriesOk(Apply(d, e)) && PutOk(env, Apply(d, e), t')
  {
    hide PutStep, PutOk;
    if t.pc.CreateTemp? {
      PutSelfCreating(env, d, t, c);
    } else if t.pc.Writing? {
      PutSelfWriting(env, d, t, c);
    } else if t.pc.Linking? {
      PutSelfLinking(env, d, t, c);
    } else if t.pc.VerifyRaced? {
      PutSelfRaced(env, d, t, c);
    } else if t.pc.Unlinking? {
      PutSelfUnlinking(env, d, t, c);
    } else {
      PutSelfOutside(env, d, t, c);
    }
  }

  lemma StepSelf(env: Env, d: Disk, t: Thread, c: Choice)
    requires EnvOk(env) && DiskOk(env, d) && ThreadOk(env, d, t)
    ensures var (e, t') := ThreadStep(env, d, t, c);
            EntriesOk(Apply(d, e)) && ThreadOk(env, Apply(d, e), t')
  {
    if t.Put? { PutSelf(env, d, t, c); } else { ReadSelf(env, d, t, c); }
  }

  lemma StepInv(env: Env, s: State, e: Event)
    requires EnvOk(env) && Inv(env, s)
    ensures Inv(env, Step(env, s, e))
    ensures Extends(s.disk, Step(env, s, e).disk)
  {
    if e.thread in s.threads {
      var t, s' := s.threads[e.thread], Step(env, s, e);
      StepDisk(env, s.disk, t, e.choice);
      StepSelf(env, s.disk, t, e.choice);
      forall j | j in s.threads && j != e.thread
        ensures ThreadOk(env, s'.disk, s.threads[j]) && Apart(s'.threads[e.thread], s.threads[j])
      {
        StepOther(env, s.disk, t, e.choice, s.threads[j]);
      }
    }
  }

  // ----- what holds of every run

  lemma InitInv(env: Env, s: State)
    requires Init(s)
    ensures Inv(env, s)
  {
  }

  /** Safety over whole runs: whatever the interleaving and wherever threads stop, every
      object has its digest, every registry record is complete and has its object, and
      what was published once is there ever after with the same content. */
  lemma {:induction false} PublishedForever(env: Env, s: State, events: seq<Event>)
    requires EnvOk(env) && Inv(env, s)
    ensures Inv(env, Exec(env, s, events))
    ensures Extends(s.disk, Exec(env, s, events).disk)
    decreases |events|
  {
    if events != [] {
      StepInv(env, s, events[0]);
      PublishedForever(env, Step(env, s, events[0]), events[1..]);
    }
  }

  /** The reader either has not looked yet, or has seen exactly this record and bytes
      of its digest and length; the only failure left to it is an input/output error. */
  ghost predicate SeesRecord(env: Env, t: Thread, r: Record) {
    t.Read? && t.id == r.id && t.hash == r.hash &&
    match t.at
    case ReadStart => true
    case ReadRecord => true
    case ReadObject(seen) => seen == r
    case ReadDone(seen, bytes) => seen == r && env.digest(bytes) == r.hash && |bytes| == r.byteLength
    case ReadFailed(e) => e == IoError
  }

  lemma ReadSeesRecord(env: Env, d: Disk, t: Thread, c: Choice, r: Record)
    requires EnvOk(env) && DiskOk(env, d) && ValidRecord(env, r) && env.validId(r.id) && IsLowerHash(r.hash)
    requires Published(env, d, r) && SeesRecord(env, t, r)
    ensures SeesRecord(env, ReadStep(env, d, t, c), r)
  {
    assert RecordOk(env, d, env.idKey(r.id), r.hash);
    assert env.parse(env.show(r)) == Some(r);
  }

  lemma DoneIsPublished(env: Env, s: State, i: nat)
    requires EnvOk(env) && Inv(env, s) && i in s.threads && s.threads[i].Put? && s.threads[i].pc.PutDone?
    ensures var r := s.threads[i].record;
            ValidRecord(env, r) && env.validId(r.id) && IsLowerHash(r.hash) && Published(env, s.disk, r)
  {
    assert ThreadOk(env, s.disk, s.threads[i]);
  }

  /** A thread keeps its arguments, does nothing unless it is its turn, and is done for good. */
  lemma StepThread(env: Env, s: State, e: Event, i: nat)
    requires EntriesOk(s.disk) && i in s.threads
    ensures i in Step(env, s, e).threads
    ensures var t, t' := s.threads[i], Step(env, s, e).threads[i];
            && t'.Put? == t.Put? && (t.Put? ==> t'.record == t.record && t'.bytes == t.bytes)
            && (t.Put? && t.pc.PutDone? ==> t' == t) && (e.thread != i ==> t' == t)
            && (e.thread == i ==> t' == ThreadStep(env, s.disk, t, e.choice).1)
  {
  }

  /** Once `put(record, bytes)` has returned, every read of that asset and hash that
      starts later returns exactly that record, with bytes of that digest and length. */
  lemma {:induction false} CompletedPutIsReadable(env: Env, s: State, writer: nat, reader: nat, events: seq<Event>)
    requires EnvOk(env) && Inv(env, s)
    requires writer in s.threads && s.threads[writer].Put? && s.threads[writer].pc.PutDone?
    requires reader in s.threads && SeesRecord(env, s.threads[reader], s.threads[writer].record)
    ensures reader in Exec(env, s, events).threads
    ensures SeesRecord(env, Exec(env, s, events).threads[reader], s.threads[writer].record)
    decreases |events|
  {
    if events != [] {
      var e, w, t := events[0], s.threads[writer], s.threads[reader];
      DoneIsPublished(env, s, writer);
      if e.thread == reader { ReadSeesRecord(env, s.disk, t, e.choice, w.record); }
      StepInv(env, s, e);
      StepThread(env, s, e, writer);
      StepThread(env, s, e, reader);
      hide Inv, Step, SeesRecord;
      CompletedPutIsReadable(env, Step(env, s, e), writer, reader, events[1..]);
    }
  }

  /** Two puts of one asset and hash that both returned stored the same record. */
  lemma RacingPutsAgree(env: Env, s: State, i: nat, j: nat)
    requires EnvOk(env) && Inv(env, s)
    requires i in s.threads && s.threads[i].Put? && s.threads[i].pc.PutDone?
    requires j in s.threads && s.threads[j].Put? && s.threads[j].pc.PutDone?
    requires s.threads[i].record.id == s.threads[j].record.id
    requires s.threads[i].record.hash == s.threads[j].record.hash
    ensures s.threads[i].record == s.threads[j].record
  {
    var r, q := s.threads[i].record, s.threads[j].record;
    assert ThreadOk(env, s.disk, s.threads[i]) && ThreadOk(env, s.disk, s.threads[j]);
    assert env.parse(env.show(r)) == Some(r) && env.parse(env.show(q)) == Some(q);
  }

  /** Why an accepted put fails, in any run: another record of the same id key and hash is
      published, or the digest has a collision of another length; the id is not an asset
      id; or the disk failed. */
  lemma PutFailures(env: Env, s: State, i: nat)
    requires EnvOk(env) && Inv(env, s)
    requires i in s.threads && s.threads[i].Put? && s.threads[i].pc.PutFailed? && Accepted(env, s.threads[i])
    ensures var t := s.threads[i];
            match t.pc.error
            case StorageIntegrity =>
              || (exists r: Record ::
                    && r != t.record && env.idKey(r.id) == env.idKey(t.record.id) && r.hash == t.record.hash
                    && Published(env, s.disk, r))
              || (exists b: Bytes :: env.digest(b) == t.record.hash && |b| != |t.bytes|)
            case InvalidRequest => !env.validId(t.record.id)
            case e => e == IoError
  {
    var t, d := s.threads[i], s.disk;
    assert ThreadOk(env, d, t);
    if t.pc.error.StorageIntegrity? {
      var k, h := env.idKey(t.record.id), t.record.hash;
      if Object(h) in d.entries && |Content(d, Object(h))| != t.record.byteLength {
        assert env.digest(Content(d, Object(h))) == h;
      } else {
        assert RecordOk(env, d, k, h);
        var r := env.parse(Content(d, Registry(k, h))).value;
        assert Published(env, d, r) && r != t.record;
      }
    }
  }

  /** The call of a step neither fails nor meets a temporary file of its own random name. */
  predicate Smooth(env: Env, d: Disk, t: Thread, c: Choice)
    requires t.Put?
  {
    !c.fault && Temp(Target(env, t), c.nonce) !in d.entries
  }

  predicate NoIoError(t: Thread)
    requires t.Put?
  {
    !(t.pc.PutFailed? && t.pc.error.IoError?) && !(t.pc.Unlinking? && t.pc.failure == Some(IoError))
  }

  lemma SmoothStep(env: Env, d: Disk, t: Thread, c: Choice)
    requires EnvOk(env) && DiskOk(env, d) && t.Put? && PutOk(env, d, t) && NoIoError(t) && Smooth(env, d, t, c)
    ensures NoIoError(PutStep(env, d, t, c).1)
  {
  }

  predicate SmoothFor(env: Env, s: State, i: nat, e: Event) {
    e.thread == i && i in s.threads && s.threads[i].Put? ==> Smooth(env, s.disk, s.threads[i], e.choice)
  }

  ghost predicate AlwaysSmooth(env: Env, s: State, i: nat, events: seq<Event>)
    requires EnvOk(env) && Inv(env, s)
    decreases |events|
  {
    events != [] ==>
      && SmoothFor(env, s, i, events[0])
      && (StepInv(env, s, events[0]); AlwaysSmooth(env, Step(env, s, events[0]), i, events[1..]))
  }

  /** A put that meets no fault of the disk never ends in an input/output error, whatever
      the other threads do: what remains are the failures above, or success. */
  lemma {:induction false} SmoothPut(env: Env, s: State, i: nat, events: seq<Event>)
    requires EnvOk(env) && Inv(env, s) && i in s.threads && s.threads[i].Put? && NoIoError(s.threads[i])
    requires AlwaysSmooth(env, s, i, events)
    ensures var s' := Exec(env, s, events);
            i in s'.threads && s'.threads[i].Put? && NoIoError(s'.threads[i])
    decreases |events|
  {
    if events != [] {
      var e := events[0];
      assert ThreadOk(env, s.disk, s.threads[i]);
      StepThread(env, s, e, i);
      if e.thread == i { SmoothStep(env, s.disk, s.threads[i], e.choice); }
      StepInv(env, s, e);
      hide Inv, Step, NoIoError;
      SmoothPut(env, Step(env, s, e), i, events[1..]);
    }
  }

  /** A read among any puts fails only because its arguments are invalid, because no
      registry record is there yet, because the disk failed, or because another asset
      id with the same key digest was stored; the object is never missing or corrupt. */
  lemma ReadFailures(env: Env, s: State, reader: nat)
    requires EnvOk(env) && Inv(env, s)
    requires reader in s.threads && s.threads[reader].Read? && s.threads[reader].at.ReadFailed?
    ensures s.threads[reader].at.error in {InvalidRequest, NotFoundRecord, IoError, CorruptIdentity}
    ensures (forall a, b | env.idKey(a) == env.idKey(b) :: a == b) ==> s.threads[reader].at.error != CorruptIdentity
  {
    assert ThreadOk(env, s.disk, s.threads[reader]);
  }

  /** What `read` returns is a published record and bytes of the digest asked for. */
  lemma ReadReturns(env: Env, s: State, reader: nat)
    requires EnvOk(env) && Inv(env, s)
    requires reader in s.threads && s.threads[reader].Read? && s.threads[reader].at.ReadDone?
    ensures var t := s.threads[reader];
            && t.at.record.id == t.id && t.at.record.hash == t.hash
            && env.digest(t.at.bytes) == t.hash && |t.at.bytes| == t.at.record.byteLength
            && Published(env, s.disk, t.at.record)
  {
    assert ThreadOk(env, s.disk, s.threads[reader]);
  }

  // ----- progress

  /** Calls left to a `put` that meets no fault and no collision of random suffixes. */
  function PutSteps(env: Env, t: Thread): nat
    requires t.Put?
  {
    var later := if t.phase.ObjectPhase? then |env.show(t.record)| + 7 else 0;
    match t.pc
    case Start => |t.bytes| + |env.show(t.record)| + 15
    case Probe => later + |Payload(env, t)| + 7
    case VerifyFirst => later + |Payload(env, t)| + 6
    case CreateTemp => later + |Payload(env, t)| + 5
    case Writing(_, _, written) => later + (if written <= |Payload(env, t)| then |Payload(env, t)| - written else 0) + 4
    case Linking(_, _) => later + 3
    case VerifyRaced(_, _) => later + 2
    case Unlinking(_, _, _) => later + 1
    case PutDone => 0
    case PutFailed(_) => 0
  }

  /** No put waits for another one: each of its steps brings it closer to its end. */
  lemma PutTerminates(env: Env, d: Disk, t: Thread, c: Choice)
    requires EnvOk(env) && DiskOk(env, d) && t.Put? && PutOk(env, d, t)
    requires !t.pc.PutDone? && !t.pc.PutFailed?
    ensures PutSteps(env, PutStep(env, d, t, c).1) < PutSteps(env, t)
  {
    hide PutOk, DiskOk, EnvOk, ValidRecord, Verifies, Content;
  }

  /** No put is left hanging: after enough of its own steps, whatever lies between them,
      it has returned or failed. */
  lemma {:induction false} PutEnds(env: Env, s: State, i: nat, events: seq<Event>)
    requires EnvOk(env) && Inv(env, s) && i in s.threads && s.threads[i].Put?
    requires Turns(i, events) >= PutSteps(env, s.threads[i])
    ensures var s' := Exec(env, s, events);
            i in s'.threads && s'.threads[i].Put? && (s'.threads[i].pc.PutDone? || s'.threads[i].pc.PutFailed?)
    decreases |events|
  {
    var t := s.threads[i];
    if events != [] {
      var e := events[0];
      assert ThreadOk(env, s.disk, t);
      StepThread(env, s, e, i);
      StepInv(env, s, e);
      if e.thread == i { PutSettles(env, s.disk, t, e.choice); }
      hide Inv, Step, PutSteps, PutStep;
      PutEnds(env, Step(env, s, e), i, events[1..]);
    }
  }

  lemma PutSettles(env: Env, d: Disk, t: Thread, c: Choice)
    requires EnvOk(env) && DiskOk(env, d) && t.Put? && PutOk(env, d, t)
    ensures var n := PutSteps(env, PutStep(env, d, t, c).1);
            n < PutSteps(env, t) || n == 0 == PutSteps(env, t)
  {
    if !t.pc.PutDone? && !t.pc.PutFailed? { PutTerminates(env, d, t, c); }
  }

  lemma {:induction false} KeepsArguments(env: Env, s: State, i: nat, events: seq<Event>)
    requires EnvOk(env) && Inv(env, s) && i in s.threads
    ensures var s' := Exec(env, s, events);
            i in s'.threads && s'.threads[i].Put? == s.threads[i].Put?
            && (s.threads[i].Put? ==>
                  s'.threads[i].record == s.threads[i].record && s'.threads[i].bytes == s.threads[i].bytes)
    decreases |events|
  {
    if events != [] {
      StepInv(env, s, events[0]);
      StepThread(env, s, events[0], i);
      hide Inv, Step;
      KeepsArguments(env, Step(env, s, events[0]), i, events[1..]);
    }
  }

  /** No other record with the id key and the hash of this one is published. */
  ghost predicate NoRival(env: Env, d: Disk, r: Record) {
    EntriesOk(d) ==>
      forall q: Record | Published(env, d, q) && env.idKey(q.id) == env.idKey(r.id) && q.hash == r.hash :: q == r
  }

  /** A put of good arguments that meets no fault and is given its steps returns, in any
      run: unless the end of the run shows another record of the same id key and hash, or
      the digest has a collision of another length. */
  lemma AcceptedPutReturns(env: Env, s: State, i: nat, events: seq<Event>)
    requires EnvOk(env) && Inv(env, s) && i in s.threads && s.threads[i].Put? && NoIoError(s.threads[i])
    requires Accepted(env, s.threads[i]) && env.validId(s.threads[i].record.id)
    requires AlwaysSmooth(env, s, i, events) && Turns(i, events) >= PutSteps(env, s.threads[i])
    requires forall b: Bytes | env.digest(b) == s.threads[i].record.hash :: |b| == |s.threads[i].bytes|
    requires NoRival(env, Exec(env, s, events).disk, s.threads[i].record)
    ensures var s' := Exec(env, s, events);
            i in s'.threads && s'.threads[i].Put? && s'.threads[i].pc.PutDone?
  {
    PutEnds(env, s, i, events);
    SmoothPut(env, s, i, events);
    PublishedForever(env, s, events);
    KeepsArguments(env, s, i, events);
    hide PutSteps, AlwaysSmooth, Published, Inv, EnvOk, ValidRecord;
    if Exec(env, s, events).threads[i].pc.PutFailed? { PutFailures(env, Exec(env, s, events), i); }
  }

  // ----- what a read answers

  /** No step of thread `i` meets a failing call. */
  predicate FaultFree(i: nat, events: seq<Event>) {
    forall k | 0 <= k < |events| && events[k].thread == i :: !events[k].choice.fault
  }

  /** How often it is the turn of thread `i`. */
  function Turns(i: nat, events: seq<Event>): nat {
    if events == [] then 0 else (if events[0].thread == i then 1 else 0) + Turns(i, events[1..])
  }

  /** A read none of whose own steps meets a failing call never ends in an input/output error. */
  lemma {:induction false} SmoothRead(env: Env, s: State, i: nat, events: seq<Event>)
    requires EnvOk(env) && Inv(env, s) && i in s.threads && s.threads[i].Read?
    requires s.threads[i].at != ReadFailed(IoError) && FaultFree(i, events)
    ensures var s' := Exec(env, s, events);
            i in s'.threads && s'.threads[i].Read? && s'.threads[i].at != ReadFailed(IoError)
    decreases |events|
  {
    if events != [] {
      var e := events[0];
      StepThread(env, s, e, i);
      if e.thread == i { ReadCalm(env, s.disk, s.threads[i], e.choice); }
      StepInv(env, s, e);
      hide Inv, Step, ReadStep;
      SmoothRead(env, Step(env, s, e), i, events[1..]);
    }
  }

  lemma ReadCalm(env: Env, d: Disk, t: Thread, c: Choice)
    requires EntriesOk(d) && t.Read? && t.at != ReadFailed(IoError) && !c.fault
    ensures ReadStep(env, d, t, c).at != ReadFailed(IoError)
  {
  }

  function StepsLeft(at: ReadPc): nat {
    if at.ReadStart? then 3 else if at.ReadRecord? then 2 else if at.ReadObject? then 1 else 0
  }

  lemma ReadAdvances(env: Env, d: Disk, t: Thread, c: Choice, r: Record)
    requires EnvOk(env) && DiskOk(env, d) && ValidRecord(env, r) && env.validId(r.id) && IsLowerHash(r.hash)
    requires Published(env, d, r) && SeesRecord(env, t, r) && t.at != ReadFailed(IoError) && !c.fault
    ensures var n := StepsLeft(ReadStep(env, d, t, c).at);
            n < StepsLeft(t.at) || n == 0 == StepsLeft(t.at)
  {
    assert RecordOk(env, d, env.idKey(r.id), r.hash);
    assert env.parse(env.show(r)) == Some(r);
  }

  /** A read of a published record that takes its three steps without a failing call, with
      any steps of other threads between them, returns that record and bytes of its digest
      and length. */
  lemma {:induction false} PublishedIsRead(env: Env, s: State, i: nat, r: Record, events: seq<Event>)
    requires EnvOk(env) && Inv(env, s) && i in s.threads && s.threads[i].Read?
    requires ValidRecord(env, r) && env.validId(r.id) && IsLowerHash(r.hash) && Published(env, s.disk, r)
    requires SeesRecord(env, s.threads[i], r) && s.threads[i].at != ReadFailed(IoError)
    requires FaultFree(i, events) && Turns(i, events) >= StepsLeft(s.threads[i].at)
    ensures var s' := Exec(env, s, events);
            && i in s'.threads && s'.threads[i].Read? && s'.threads[i].at.ReadDone?
            && s'.threads[i].at.record == r
            && env.digest(s'.threads[i].at.bytes) == r.hash && |s'.threads[i].at.bytes| == r.byteLength
    decreases |events|
  {
    if events != [] {
      var e, t := events[0], s.threads[i];
      StepThread(env, s, e, i);
      if e.thread == i {
        ReadCalm(env, s.disk, t, e.choice);
        ReadSeesRecord(env, s.disk, t, e.choice, r);
        ReadAdvances(env, s.disk, t, e.choice, r);
      }
      StepInv(env, s, e);
      StableFacts(env, s.disk, Step(env, s, e).disk, r);
      hide Inv, Step, SeesRecord, ReadStep, Published, StepsLeft, ValidRecord, EnvOk;
      PublishedIsRead(env, Step(env, s, e), i, r, events[1..]);
    }
  }

  /** The round trip: what a `put` that returned was given is what a later read without
      failing calls returns, byte for byte if no other bytes of that length share the digest. */
  lemma PutThenRead(env: Env, s: State, writer: nat, i: nat, events: seq<Event>)
    requires EnvOk(env) && Inv(env, s)
    requires writer in s.threads && s.threads[writer].Put? && s.threads[writer].pc.PutDone?
    requires i in s.threads && s.threads[i].Read? && s.threads[i].at.ReadStart?
    requires s.threads[i].id == s.threads[writer].record.id && s.threads[i].hash == s.threads[writer].record.hash
    requires FaultFree(i, events) && Turns(i, events) >= 3
    ensures var (w, s') := (s.threads[writer], Exec(env, s, events));
            && i in s'.threads && s'.threads[i].Read? && s'.threads[i].at.ReadDone?
            && s'.threads[i].at.record == w.record
            && ((forall b: Bytes | env.digest(b) == w.record.hash && |b| == |w.bytes| :: b == w.bytes)
                ==> s'.threads[i].at.bytes == w.bytes)
  {
    assert ThreadOk(env, s.disk, s.threads[writer]);
    DoneIsPublished(env, s, writer);
    PublishedIsRead(env, s, i, s.threads[writer].record, events);
  }

  /** A finished read keeps its answer. */
  lemma {:induction false} AnswerStays(env: Env, s: State, i: nat, events: seq<Event>)
    requires EnvOk(env) && Inv(env, s) && i in s.threads && s.threads[i].Read?
    requires s.threads[i].at.ReadDone? || s.threads[i].at.ReadFailed?
    ensures i in Exec(env, s, events).threads && Exec(env, s, events).threads[i] == s.threads[i]
    decreases |events|
  {
    if events != [] {
      StepThread(env, s, events[0], i);
      StepInv(env, s, events[0]);
      hide Inv, Step;
      AnswerStays(env, Step(env, s, events[0]), i, events[1..]);
    }
  }

  /** What the registry decides, at the step in which a read looks for its record: a failing
      call is an input/output error, no record is `not_found` and the record of another id
      is a corrupt identity; each answer is final. */
  lemma RegistryDecides(env: Env, s: State, i: nat, e: Event, rest: seq<Event>)
    requires EnvOk(env) && Inv(env, s) && i in s.threads && s.threads[i].Read? && s.threads[i].at.ReadRecord?
    requires e.thread == i
    ensures var (t, s') := (s.threads[i], Exec(env, s, [e] + rest));
            var name := Registry(env.idKey(t.id), t.hash);
            && i in s'.threads && s'.threads[i].Read?
            && (e.choice.fault ==> s'.threads[i].at == ReadFailed(IoError))
            && (!e.choice.fault && name !in s.disk.entries ==> s'.threads[i].at == ReadFailed(NotFoundRecord))
            && (name in s.disk.entries ==> s'.threads[i].at != ReadFailed(NotFoundRecord))
            && (!e.choice.fault
                && (exists r: Record | Published(env, s.disk, r) ::
                      r.id != t.id && env.idKey(r.id) == env.idKey(t.id) && r.hash == t.hash && ValidRecord(env, r))
                ==> s'.threads[i].at == ReadFailed(CorruptIdentity))
  {
    var t, s1 := s.threads[i], Step(env, s, e);
    assert ([e] + rest)[0] == e && ([e] + rest)[1..] == rest;
    StepInv(env, s, e);
    RegistryStep(env, s.disk, t, e.choice);
    if s1.threads[i].at.ReadFailed? {
      AnswerStays(env, s1, i, rest);
    } else {
      FoundIsNotMissing(env, s1, i, rest);
    }
  }

  lemma RegistryStep(env: Env, d: Disk, t: Thread, c: Choice)
    requires EnvOk(env) && DiskOk(env, d) && t.Read? && t.at.ReadRecord?
    ensures var (at, name) := (ReadStep(env, d, t, c).at, Registry(env.idKey(t.id), t.hash));
            && (at.ReadFailed? || at.ReadObject?)
            && (c.fault ==> at == ReadFailed(IoError))
            && (!c.fault && name !in d.entries ==> at == ReadFailed(NotFoundRecord))
            && (name in d.entries ==> at != ReadFailed(NotFoundRecord))
            && (!c.fault
                && (exists r: Record | Published(env, d, r) ::
                      r.id != t.id && env.idKey(r.id) == env.idKey(t.id) && r.hash == t.hash && ValidRecord(env, r))
                ==> at == ReadFailed(CorruptIdentity))
  {
    forall r: Record | ValidRecord(env, r) ensures env.parse(env.show(r)) == Some(r) {}
  }

  /** Past its record, a read never reports it missing. */
  lemma {:induction false} FoundIsNotMissing(env: Env, s: State, i: nat, events: seq<Event>)
    requires EnvOk(env) && Inv(env, s) && i in s.threads && s.threads[i].Read?
    requires !s.threads[i].at.ReadStart? && !s.threads[i].at.ReadRecord?
    requires s.threads[i].at != ReadFailed(NotFoundRecord)
    ensures var s' := Exec(env, s, events);
            i in s'.threads && s'.threads[i].Read? && s'.threads[i].at != ReadFailed(NotFoundRecord)
    decreases |events|
  {
    if events != [] {
      StepThread(env, s, events[0], i);
      StepInv(env, s, events[0]);
      hide Inv, Step;
      FoundIsNotMissing(env, Step(env, s, events[0]), i, events[1..]);
    }
  }

  /** A read whose id or hash has the wrong form is refused, and a read that is refused had one. */
  lemma {:induction false} MalformedIsRefused(env: Env, s: State, i: nat, events: seq<Event>)
    requires EnvOk(env) && Inv(env, s) && i in s.threads && s.threads[i].Read? && s.threads[i].at.ReadStart?
    requires Turns(i, events) >= 1
    ensures var (t, s') := (s.threads[i], Exec(env, s, events));
            && i in s'.threads && s'.threads[i].Read?
            && (s'.threads[i].at == ReadFailed(InvalidRequest) <==> !(env.validId(t.id) && IsLowerHash(t.hash)))
    decreases |events|
  {
    var e := events[0];
    StepThread(env, s, e, i);
    StepInv(env, s, e);
    if e.thread != i {
      hide Inv, Step;
      MalformedIsRefused(env, Step(env, s, e), i, events[1..]);
    } else {
      NotRefusedLater(env, Step(env, s, e), i, events[1..]);
    }
  }

  lemma {:induction false} NotRefusedLater(env: Env, s: State, i: nat, events: seq<Event>)
    requires EnvOk(env) && Inv(env, s) && i in s.threads && s.threads[i].Read? && !s.threads[i].at.ReadStart?
    ensures var s' := Exec(env, s, events);
            && i in s'.threads && s'.threads[i].Read? && !s'.threads[i].at.ReadStart?
            && (s'.threads[i].at == ReadFailed(InvalidRequest) <==> s.threads[i].at == ReadFailed(InvalidRequest))
    decreases |events|
  {
    if events != [] {
      StepThread(env, s, events[0], i);
      StepInv(env, s, events[0]);
      hide Inv, Step;
      NotRefusedLater(env, Step(env, s, events[0]), i, events[1..]);
    }
  }

  // ----- refused arguments, and temporary files

  /** A put is refused at its first step exactly when its record is not valid or does not
      describe the bytes. */
  lemma PutRefusedExactly(env: Env, s: State, i: nat, e: Event)
    requires EntriesOk(s.disk) && i in s.threads && s.threads[i].Put? && s.threads[i].pc.Start? && e.thread == i
    ensures var (t, s') := (s.threads[i], Step(env, s, e));
            var r := t.record;
            && i in s'.threads && s'.threads[i].Put? && s'.disk == s.disk
            && (s'.threads[i].pc == PutFailed(StorageIntegrity) <==>
                  !(&& env.validManifest(r) && 1 <= r.byteLength <= 0x1F_FFFF_FFFF_FFFF
                    && r.storageKey == "sha256:" + r.hash
                    && (r.originalFilename.Some? ==>
                          && 1 <= Utf16Length(r.originalFilename.value) <= 1024
                          && forall c | c in r.originalFilename.value :: c >= ' ' && c != '\U{7f}')
                    && env.digest(t.bytes) == r.hash && |t.bytes| == r.byteLength))
  {
    hide Utf16Length;
  }

  /** A temporary file belongs to a put that is still at work on it, or to one that failed on
      an input/output error while it was publishing that target. */
  ghost predicate Owned(env: Env, s: State, n: Name) {
    n.Temp? && exists i | i in s.threads && s.threads[i].Put? :: OwnedBy(env, s.threads[i], n)
  }

  predicate OwnedBy(env: Env, t: Thread, n: Name)
    requires t.Put? && n.Temp?
  {
    if HasTemp(t) then TempName(env, t) == n else t.pc == PutFailed(IoError) && Target(env, t) == n.target
  }

  ghost predicate NoLitter(env: Env, s: State) {
    forall n | n in s.disk.entries && n.Temp? :: Owned(env, s, n)
  }

  lemma OwnStep(env: Env, d: Disk, t: Thread, c: Choice, n: Name)
    requires EntriesOk(d) && t.Put? && PutOk(env, d, t) && n.Temp?
    ensures var (e, t') := PutStep(env, d, t, c);
            && EntriesOk(d)
            && (n in Apply(d, e).entries && (OwnedBy(env, t, n) || n !in d.entries) ==> OwnedBy(env, t', n))
  {
    hide Verifies, ValidRecord, FailureOk, Published, Payload;
    assert !Target(env, t).Temp?;
  }

  lemma LitterStep(env: Env, s: State, e: Event)
    requires EnvOk(env) && Inv(env, s) && NoLitter(env, s)
    ensures NoLitter(env, Step(env, s, e))
  {
    var s' := Step(env, s, e);
    if e.thread in s.threads {
      var t := s.threads[e.thread];
      assert ThreadOk(env, s.disk, t);
      forall n | n in s'.disk.entries && n.Temp? ensures Owned(env, s', n) {
        if t.Put? { OwnStep(env, s.disk, t, e.choice, n); }
        hide ThreadStep, OwnedBy, PutStep, ReadStep, Inv;
        if n in s.disk.entries {
          assert Owned(env, s, n);
          var i :| i in s.threads && s.threads[i].Put? && OwnedBy(env, s.threads[i], n);
          assert s'.threads[i].Put? && OwnedBy(env, s'.threads[i], n);
        } else {
          assert s'.threads[e.thread].Put? && OwnedBy(env, s'.threads[e.thread], n);
        }
      }
    }
  }

  /** In every run, a put that returned, or failed for any other reason than an input/output
      error, has left no temporary file: when all have, only published files remain. */
  lemma {:induction false} NothingLeftBehind(env: Env, s: State, events: seq<Event>)
    requires EnvOk(env) && Inv(env, s) && NoLitter(env, s)
    ensures NoLitter(env, Exec(env, s, events))
    ensures var s' := Exec(env, s, events);
            (forall i | i in s'.threads && s'.threads[i].Put? ::
               !HasTemp(s'.threads[i]) && s'.threads[i].pc != PutFailed(IoError))
            ==> forall n | n in s'.disk.entries :: !n.Temp?
    decreases |events|
  {
    if events != [] {
      StepInv(env, s, events[0]);
      LitterStep(env, s, events[0]);
      hide Inv, Step, NoLitter;
      NothingLeftBehind(env, Step(env, s, events[0]), events[1..]);
    }
  }

  lemma InitHasNoLitter(env: Env, s: State)
    requires Init(s)
    ensures NoLitter(env, s)
  {
  }
}
