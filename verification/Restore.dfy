/** Restoring a backup: an uploaded file is validated and swapped in by two renames, each of which may
    fail, with a crash possible between any two operations. */
module Restore {
  import opened Text
  import opened Files

  /** A file's content: a SQLite database with its tables' row counts, a write-ahead log together with
      the database it amounts to once replayed, or anything else. */
  datatype Content =
    | Raw(bytes: string)
    | Database(tables: map<string, nat>, bytes: string)
    | Wal(replayed: Content)

  datatype Summary = Summary(servers: nat, samples: nat, users: nat)

  const TABLES := ["servers", "users", "settings", "samples"]

  function Rows(c: Content, table: string): nat
    requires c.Database?
  {
    if table in c.tables then c.tables[table] else 0
  }

  /** What InspectBackup accepts when reading succeeds. */
  predicate Acceptable(c: Content) {
    c.Database? && (forall i :: 0 <= i < |TABLES| ==> TABLES[i] in c.tables) && Rows(c, "users") > 0
  }

  /** Those are exactly the databases with the four tables of the schema and an operator account. */
  lemma AcceptableMeans(c: Content)
    ensures Acceptable(c) <==>
            c.Database? && "servers" in c.tables && "users" in c.tables && "settings" in c.tables &&
            "samples" in c.tables && c.tables["users"] > 0
  {
    assert TABLES[0] == "servers" && TABLES[1] == "users" && TABLES[2] == "settings" && TABLES[3] == "samples";
  }

  predicate Counted(count: nat, rows: nat, fault: bool) {
    count == rows || (count == 0 && fault)
  }

  method InspectBackup(fs: FileSystem<Content>, path: string) returns (r: Option<Summary>)
    requires fs.Valid()
    modifies fs`faults
    ensures fs.Valid() && fs.faults >= old(fs.faults)
    ensures r.Some? ==> path in fs.files && Acceptable(fs.files[path])
    ensures r.Some? ==>
              var c := fs.files[path];
              c.Database? && {"servers", "users", "settings", "samples"} <= c.tables.Keys && c.tables["users"] > 0
    ensures r.None? && path in fs.files && Acceptable(fs.files[path]) ==> fs.faults > old(fs.faults)
    // a count of servers or samples that fails is reported as zero
    ensures r.Some? ==>
              && r.value.users == Rows(fs.files[path], "users")
              && Counted(r.value.servers, Rows(fs.files[path], "servers"), fs.faults > old(fs.faults))
              && Counted(r.value.samples, Rows(fs.files[path], "samples"), fs.faults > old(fs.faults))
  {
    var unreadable: bool := *;
    fs.Note(unreadable);
    if unreadable || path !in fs.files || !fs.files[path].Database? {
      return None;
    }
    var c := fs.files[path];
    for i := 0 to |TABLES|
      invariant forall j :: 0 <= j < i ==> TABLES[j] in c.tables
    {
      if TABLES[i] !in c.tables {
        return None;
      }
    }
    var users := Rows(c, "users");
    if users == 0 {
      return None;
    }
    var serversFail: bool := *;
    var samplesFail: bool := *;
    fs.Note(serversFail);
    fs.Note(samplesFail);
    AcceptableMeans(c);
    return Some(Summary(if serversFail then 0 else Rows(c, "servers"),
                        if samplesFail then 0 else Rows(c, "samples"), users));
  }

  /** The names around the database. */
  datatype Paths = Paths(db: string, incoming: string, replaced: string, wal: string, shm: string)

  function PathsOf(db: string): Paths {
    Paths(db, db + ".incoming", db + ".replaced", db + "-wal", db + "-shm")
  }

  predicate Distinct(p: Paths) {
    p.db != p.incoming && p.db != p.replaced && p.db != p.wal && p.db != p.shm &&
    p.incoming != p.replaced && p.incoming != p.wal && p.incoming != p.shm &&
    p.replaced != p.wal && p.replaced != p.shm && p.wal != p.shm
  }

  lemma {:induction false} PathsAreDistinct(db: string)
    ensures Distinct(PathsOf(db))
    ensures PathsOf(db) == Paths(db, db + ".incoming", db + ".replaced", db + "-wal", db + "-shm")
  {
    var p, n := PathsOf(db), |db|;
    assert p.incoming[n + 1] == 'i' && p.replaced[n + 1] == 'r';
    assert p.wal[n + 1] == 'w' && p.shm[n + 1] == 's';
  }

  /** What the hub would read: the database with its log applied. */
  function Logical(files: map<string, Content>, p: Paths): Content
    requires p.db in files
  {
    if p.wal in files && files[p.wal].Wal? then files[p.wal].replayed else files[p.db]
  }

  /** Closing the last connection checkpoints the log into the database and removes it. When Close
      reports an error nothing has moved. */
  method CloseStore(fs: FileSystem<Content>, p: Paths) returns (ok: bool)
    requires p.db in fs.files
    modifies fs
    ensures fs.Valid() && fs.trace == old(fs.trace) + [fs.files] && fs.faults >= old(fs.faults)
    ensures ok ==> fs.files == (old(fs.files) - {p.wal, p.shm})[p.db := Logical(old(fs.files), p)]
    ensures !ok ==> fs.files == old(fs.files) && fs.faults > old(fs.faults)
  {
    ok := *;
    fs.Note(!ok);
    if ok {
      var whole := Logical(fs.files, p);
      fs.files := (fs.files - {p.wal, p.shm})[p.db := whole];
    }
    fs.trace := fs.trace + [fs.files];
  }

  /** The part of the directory the running hub depends on. */
  function Live(files: map<string, Content>, p: Paths): map<string, Content> {
    files - {p.incoming}
  }

  /** The database the hub had, intact, under its own name or set aside. */
  predicate Kept(files: map<string, Content>, p: Paths, original: Content) {
    (p.db in files && Logical(files, p) == original) || (p.replaced in files && files[p.replaced] == original)
  }

  /** The database name, when present, holds the file that was there, that file checkpointed, or a
      file InspectBackup accepted. */
  predicate Sound(files: map<string, Content>, p: Paths, before: Content, original: Content) {
    p.db in files ==>
      files[p.db] == before || files[p.db] == original || Acceptable(files[p.db])
  }

  /** What a hub starting now would read is the original database or an accepted one. */
  predicate OpensWell(files: map<string, Content>, p: Paths, original: Content) {
    p.db in files ==> Logical(files, p) == original || Acceptable(Logical(files, p))
  }

  /** The HTTP status, and the exit code when the process is told to restart. */
  datatype Reply = Reply(status: int, exit: Option<int>)

  /** The request: whether the form could be read and the uploaded file, if one was sent. */
  datatype Upload = Upload(readable: bool, file: Option<Content>)

  /** Every state since `begin` is sound and, if the log is checkpointed, keeps the original and opens on
      it or on an accepted database. */
  ghost predicate Safe(trace: seq<map<string, Content>>, begin: nat, p: Paths, before: Content, original: Content,
                       checkpointed: bool) {
    forall i :: begin <= i < |trace| ==>
      Sound(trace[i], p, before, original) &&
      (checkpointed ==> Kept(trace[i], p, original) && OpensWell(trace[i], p, original))
  }

  /** The stages of a swap, by where the old file `held` is. */
  ghost predicate Standing(files: map<string, Content>, p: Paths, held: Content) {
    p.db in files && files[p.db] == held
  }

  ghost predicate SetAside(files: map<string, Content>, p: Paths, held: Content) {
    p.db !in files && p.replaced in files && files[p.replaced] == held
  }

  ghost predicate Installed(files: map<string, Content>, p: Paths, held: Content, upload: Content) {
    p.db in files && files[p.db] == upload && p.replaced in files && files[p.replaced] == held && p.incoming !in files
  }

  ghost predicate Staged(files: map<string, Content>, p: Paths, held: Content, upload: Content, closed: bool) {
    (Standing(files, p, held) || SetAside(files, p, held) || Installed(files, p, held, upload)) &&
    (closed ==> p.wal !in files)
  }

  lemma {:induction false} SafeSnoc(trace: seq<map<string, Content>>, files: map<string, Content>, begin: nat, p: Paths,
                 before: Content, original: Content, upload: Content, closed: bool)
    requires Safe(trace, begin, p, before, original, closed) && Acceptable(upload)
    requires Staged(files, p, if closed then original else before, upload, closed)
    ensures Safe(trace + [files], begin, p, before, original, closed)
  {
  }

  /** What a finished swap has done. `held` is the file the database name had when Close returned. */
  ghost predicate Swapped(files: map<string, Content>, p: Paths, held: Content, upload: Content, reply: Reply) {
    (reply == Reply(200, Some(0)) && Installed(files, p, held, upload)) ||
    (reply == Reply(500, Some(1)) &&
      if p.db in files then files[p.db] == held else p.replaced in files && files[p.replaced] == held)
  }

  /** What `faults` failures of the swap can have left undone: none for a full success, one for the old
      database back in place, two for anything less. */
  ghost predicate FaultsTell(files: map<string, Content>, p: Paths, reply: Reply, faults: int) {
    && faults >= 0
    && (faults == 0 ==> reply.exit == Some(0) && p.wal !in files && p.shm !in files)
    && (reply.exit == Some(1) && p.db !in files ==> faults >= 2)
  }

  /** handleRestore after Close: the database is set aside and the accepted upload renamed into its
      place, or the old file put back. */
  method Swap(fs: FileSystem<Content>, p: Paths, ghost begin: nat, ghost before: Content, ghost original: Content,
              ghost upload: Content, ghost closed: bool)
    returns (reply: Reply)
    requires fs.Valid() && Distinct(p) && Acceptable(upload)
    requires p.incoming in fs.files && fs.files[p.incoming] == upload
    requires Standing(fs.files, p, if closed then original else before) && (closed ==> p.wal !in fs.files)
    requires Safe(fs.trace, begin, p, before, original, closed)
    modifies fs
    ensures fs.Valid() && old(fs.trace) <= fs.trace
    ensures Safe(fs.trace, begin, p, before, original, closed)
    ensures Swapped(fs.files, p, if closed then original else before, upload, reply)
    ensures FaultsTell(fs.files, p, reply, fs.faults - old(fs.faults))
  {
    ghost var held := if closed then original else before;
    ghost var t := fs.trace;
    var _ := fs.Remove(p.replaced);
    SafeSnoc(t, fs.files, begin, p, before, original, upload, closed);

    t := fs.trace;
    var aside := fs.Rename(p.db, p.replaced);
    if !aside {
      SafeSnoc(t, fs.files, begin, p, before, original, upload, closed);
      t := fs.trace;
      var _ := fs.Remove(p.incoming);
      SafeSnoc(t, fs.files, begin, p, before, original, upload, closed);
      return Reply(500, Some(1));
    }
    assert SetAside(fs.files, p, held) && fs.files[p.incoming] == upload;
    SafeSnoc(t, fs.files, begin, p, before, original, upload, closed);

    reply := PutIn(fs, p, begin, before, original, upload, closed);
  }

  /** The second rename and its rollback. */
  method PutIn(fs: FileSystem<Content>, p: Paths, ghost begin: nat, ghost before: Content, ghost original: Content,
               ghost upload: Content, ghost closed: bool)
    returns (reply: Reply)
    requires fs.Valid() && Distinct(p) && Acceptable(upload)
    requires p.incoming in fs.files && fs.files[p.incoming] == upload
    requires SetAside(fs.files, p, if closed then original else before) && (closed ==> p.wal !in fs.files)
    requires Safe(fs.trace, begin, p, before, original, closed)
    modifies fs
    ensures fs.Valid() && old(fs.trace) <= fs.trace
    ensures Safe(fs.trace, begin, p, before, original, closed)
    ensures Swapped(fs.files, p, if closed then original else before, upload, reply)
    ensures FaultsTell(fs.files, p, reply, fs.faults - old(fs.faults))
  {
    ghost var held := if closed then original else before;
    ghost var t := fs.trace;
    var installed := fs.Rename(p.incoming, p.db);
    if !installed {
      SafeSnoc(t, fs.files, begin, p, before, original, upload, closed);
      t := fs.trace;
      var _ := fs.Rename(p.replaced, p.db);
      SafeSnoc(t, fs.files, begin, p, before, original, upload, closed);
      return Reply(500, Some(1));
    }
    assert Installed(fs.files, p, held, upload);
    SafeSnoc(t, fs.files, begin, p, before, original, upload, closed);
    RemoveLeftovers(fs, p, begin, before, original, upload, closed);
    return Reply(200, Some(0));
  }

  /** The log files of the database that moved away. */
  method RemoveLeftovers(fs: FileSystem<Content>, p: Paths, ghost begin: nat, ghost before: Content,
                         ghost original: Content, ghost upload: Content, ghost closed: bool)
    requires fs.Valid() && Distinct(p) && Acceptable(upload)
    requires Installed(fs.files, p, if closed then original else before, upload) && (closed ==> p.wal !in fs.files)
    requires Safe(fs.trace, begin, p, before, original, closed)
    modifies fs
    ensures fs.Valid() && old(fs.trace) <= fs.trace && fs.faults >= old(fs.faults)
    ensures Safe(fs.trace, begin, p, before, original, closed)
    ensures Installed(fs.files, p, if closed then original else before, upload)
    ensures fs.faults == old(fs.faults) ==> p.wal !in fs.files && p.shm !in fs.files
  {
    ghost var t := fs.trace;
    var _ := fs.Remove(p.wal);
    SafeSnoc(t, fs.files, begin, p, before, original, upload, closed);
    t := fs.trace;
    var _ := fs.Remove(p.shm);
    SafeSnoc(t, fs.files, begin, p, before, original, upload, closed);
  }

  /** At some moment since `begin` the incoming file held the whole upload. */
  ghost predicate WrittenSince(trace: seq<map<string, Content>>, begin: nat, p: Paths, upload: Content) {
    exists i :: begin <= i < |trace| && p.incoming in trace[i] && trace[i][p.incoming] == upload
  }

  /** handleRestore before Close: the upload is written beside the database and inspected there. A
      rejection carries the status of the reply. */
  method Receive(fs: FileSystem<Content>, p: Paths, upload: Content) returns (rejection: Option<int>)
    requires fs.Valid() && Distinct(p)
    modifies fs
    ensures fs.Valid() && old(fs.trace) <= fs.trace && fs.faults >= old(fs.faults)
    ensures Untouched(fs.trace, |old(fs.trace)|, p, old(fs.files)) && Live(fs.files, p) == Live(old(fs.files), p)
    ensures rejection.None? ==> p.incoming in fs.files && fs.files[p.incoming] == upload && Acceptable(upload)
    // 500 for a file that could not be written, 400 for one that was written whole and is not accepted
    ensures rejection.Some? ==> rejection.value == 400 || (rejection.value == 500 && fs.faults > old(fs.faults))
    ensures rejection == Some(400) ==> WrittenSince(fs.trace, |old(fs.trace)|, p, upload)
    ensures fs.faults == old(fs.faults) ==>
              (rejection.None? <==> Acceptable(upload)) && (rejection.Some? ==> p.incoming !in fs.files)
  {
    var created := fs.Create(p.incoming);
    if !created {
      return Some(500);
    }
    var copied := fs.Copy(p.incoming, upload);
    if !copied {
      var _ := fs.Remove(p.incoming);
      return Some(500);
    }
    ghost var whole := |fs.trace| - 1;
    var summary := InspectBackup(fs, p.incoming);
    if summary.None? {
      var _ := fs.Remove(p.incoming);
      assert p.incoming in fs.trace[whole] && fs.trace[whole][p.incoming] == upload;
      return Some(400);
    }
    return None;
  }

  /** handleRestore. `checkpointed` reports how Close went. */
  method HandleRestore(fs: FileSystem<Content>, db: string, upload: Upload)
    returns (reply: Reply, ghost checkpointed: bool)
    requires fs.Valid() && db in fs.files
    modifies fs
    ensures fs.Valid() && old(fs.trace) <= fs.trace
    // whatever fails and wherever the process dies
    ensures var p := PathsOf(db);
      var original := Logical(old(fs.files), p);
      Safe(fs.trace, |old(fs.trace)|, p, old(fs.files)[db], original, checkpointed)
    // a rejection leaves the live files alone throughout
    ensures reply.exit.None? ==>
      var p := PathsOf(db);
      && (reply.status == 400 || reply.status == 500)
      && Live(fs.files, p) == Live(old(fs.files), p)
      && forall i :: |old(fs.trace)| <= i < |fs.trace| ==> Live(fs.trace[i], p) == Live(old(fs.files), p)
    ensures reply == Reply(400, None) && upload.readable && upload.file.Some? ==>
              WrittenSince(fs.trace, |old(fs.trace)|, PathsOf(db), upload.file.value)
    ensures !upload.readable || upload.file.None? ==> reply == Reply(400, None) && fs.files == old(fs.files)
    ensures upload.readable && upload.file.Some? && !Acceptable(upload.file.value) ==> reply.exit.None?
    // success: the upload is installed and the old file is set aside
    ensures reply.exit == Some(0) ==>
      var p := PathsOf(db);
      && reply.status == 200 && upload.readable && upload.file.Some?
      && db in fs.files && fs.files[db] == upload.file.value && Acceptable(upload.file.value)
      && p.replaced in fs.files && p.incoming !in fs.files
      && (fs.files[p.replaced] == Logical(old(fs.files), p) <==>
          checkpointed || old(fs.files)[db] == Logical(old(fs.files), p))
    // without a fault: acceptance of an acceptable upload, no stale log beside it, no upload left over
    ensures fs.faults >= old(fs.faults)
    ensures fs.faults == old(fs.faults) && upload.readable && upload.file.Some? ==>
      var p := PathsOf(db);
      && (reply.exit == Some(0) <==> Acceptable(upload.file.value)) && p.incoming !in fs.files
      && (reply.exit == Some(0) ==> checkpointed && p.wal !in fs.files && p.shm !in fs.files)
    ensures reply.exit == Some(1) && db !in fs.files ==> fs.faults >= old(fs.faults) + 2
    // a failed swap restarts on the old database unless putting it back failed too
    ensures reply.exit.Some? && reply.exit != Some(0) ==>
      var p := PathsOf(db);
      && reply == Reply(500, Some(1))
      && (var held := if checkpointed then Logical(old(fs.files), p) else old(fs.files)[db];
          if db in fs.files then fs.files[db] == held
          else p.replaced in fs.files && fs.files[p.replaced] == held)
  {
    checkpointed := false;
    if !upload.readable || upload.file.None? {
      return Reply(400, None), false;
    }
    var p := PathsOf(db);
    PathsAreDistinct(db);
    ghost var start, begin := fs.files, |fs.trace|;

    var rejection := Receive(fs, p, upload.file.value);
    UntouchedIsSafe(fs.trace, begin, p, start);
    if rejection.Some? {
      return Reply(rejection.value, None), false;
    }

    LiveDecides(fs.files, start, p);
    ghost var before, original, t := start[db], Logical(start, p), fs.trace;
    var closed := CloseStore(fs, p);
    checkpointed := closed;
    SafeSnoc(t, fs.files, begin, p, before, original, upload.file.value, closed);
    reply := Swap(fs, p, begin, before, original, upload.file.value, closed);
  }

  /** Since `begin`, only the incoming file has changed. */
  ghost predicate Untouched(trace: seq<map<string, Content>>, begin: nat, p: Paths, start: map<string, Content>) {
    forall i :: begin <= i < |trace| ==> Live(trace[i], p) == Live(start, p)
  }

  lemma LiveDecides(files: map<string, Content>, start: map<string, Content>, p: Paths)
    requires Distinct(p) && p.db in start && Live(files, p) == Live(start, p)
    ensures p.db in files && files[p.db] == start[p.db] && Logical(files, p) == Logical(start, p)
  {
    var a, b := Live(files, p), Live(start, p);
    assert p.db in b && p.db in a && a[p.db] == files[p.db];
    assert p.wal in files <==> p.wal in a;
    assert p.wal in start <==> p.wal in b;
    if p.wal in a {
      assert a[p.wal] == files[p.wal] && b[p.wal] == start[p.wal];
    }
  }

  lemma UntouchedIsSafe(trace: seq<map<string, Content>>, begin: nat, p: Paths, start: map<string, Content>)
    requires Distinct(p) && p.db in start && Untouched(trace, begin, p, start)
    ensures Safe(trace, begin, p, start[p.db], Logical(start, p), true)
  {
    forall i | begin <= i < |trace|
      ensures Sound(trace[i], p, start[p.db], Logical(start, p)) && Kept(trace[i], p, Logical(start, p))
      ensures OpensWell(trace[i], p, Logical(start, p))
    {
      LiveDecides(trace[i], start, p);
    }
  }

  /** The equivalence bites: in this directory the log holds a database `b` that the file `a` does not show.
      When Close fails and both renames and the clean-up succeed, no copy of `b` is left. */
  lemma UncheckpointedLogIsLost(db: string, a: Content, b: Content, upload: Content)
    requires a != b && upload != b && !upload.Wal?
    ensures var p := PathsOf(db);
            var start := map[p.db := a, p.wal := Wal(b), p.incoming := upload];
            var aside := (start - {p.db})[p.replaced := start[p.db]];
            var installed := (aside - {p.incoming})[p.db := aside[p.incoming]];
            var cleaned := installed - {p.wal};
            && Logical(start, p) == b && Kept(start, p, b)
            && cleaned == map[p.db := upload, p.replaced := a]
            && !Kept(cleaned, p, b) && b !in cleaned.Values
  {
    PathsAreDistinct(db);
  }
}
