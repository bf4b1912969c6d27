/** The hash-chained audit log (orchestrator/audit_log.py). Hashing and signing are parameters. */
module AuditChain {
  import opened Prelude

  datatype Content = Content(
    sequenceNumber: int,
    timestamp: real,
    peerId: string,
    oldStatus: string,
    newStatus: string,
    witnesses: seq<string>,
    previousHash: string,
    signature: string)

  datatype Entry = Entry(content: Content, hash: string)

  datatype Crypto = Crypto(
    hash: Content -> string,
    signer: Option<Content -> string>,
    verifier: Option<(Content, string) -> bool>)

  ghost predicate Injective(crypto: Crypto) {
    forall a, b :: crypto.hash(a) == crypto.hash(b) ==> a == b
  }

  /** The content without its signature, as the signer and the verifier see it. */
  function Unsigned(content: Content): Content {
    content.(signature := "")
  }

  predicate SignatureOk(crypto: Crypto, content: Content) {
    crypto.verifier.None? || content.signature == "" || crypto.verifier.value(Unsigned(content), content.signature)
  }

  function LastHash(entries: seq<Entry>): string {
    if entries == [] then "" else entries[|entries| - 1].hash
  }

  predicate LinkOk(crypto: Crypto, entries: seq<Entry>, i: int)
    requires 0 <= i < |entries|
  {
    && entries[i].content.sequenceNumber == i
    && entries[i].content.previousHash == LastHash(entries[..i])
    && crypto.hash(entries[i].content) == entries[i].hash
    && SignatureOk(crypto, entries[i].content)
  }

  ghost predicate ChainOk(crypto: Crypto, entries: seq<Entry>) {
    forall i :: 0 <= i < |entries| ==> LinkOk(crypto, entries, i)
  }

  /** One link in full: numbered by its position, tied to the hash before it, with the hash of its content,
      and without a signature that the verifier rejects. */
  ghost predicate LinkInFull(crypto: Crypto, entries: seq<Entry>, i: int)
    requires 0 <= i < |entries|
  {
    && entries[i].content.sequenceNumber == i
    && entries[i].content.previousHash == (if i == 0 then "" else entries[i - 1].hash)
    && entries[i].hash == crypto.hash(entries[i].content)
    && (crypto.verifier.Some? && entries[i].content.signature != "" ==>
          crypto.verifier.value(entries[i].content.(signature := ""), entries[i].content.signature))
  }

  lemma ChainInFull(crypto: Crypto, entries: seq<Entry>)
    ensures ChainOk(crypto, entries) <==> forall i :: 0 <= i < |entries| ==> LinkInFull(crypto, entries, i)
  {
    forall i | 0 <= i < |entries|
      ensures LinkOk(crypto, entries, i) <==> LinkInFull(crypto, entries, i)
    {
      assert i > 0 ==> entries[..i][i - 1] == entries[i - 1];
    }
  }

  /** What a caller asks to have recorded. */
  datatype Request = Request(peerId: string, oldStatus: string, newStatus: string, witnesses: seq<string>)

  function NextEntry(crypto: Crypto, entries: seq<Entry>, r: Request, now: real): Entry {
    var provisional := Content(|entries|, now, r.peerId, r.oldStatus, r.newStatus, r.witnesses, LastHash(entries), "");
    var content := provisional.(signature := if crypto.signer.Some? then crypto.signer.value(provisional) else "");
    Entry(content, crypto.hash(content))
  }

  /** The entry says what was asked at the time given, and is signed by the signer, when there is one, over
      everything but the signature itself. */
  ghost predicate Attests(crypto: Crypto, e: Entry, r: Request, now: real) {
    && e.content.peerId == r.peerId && e.content.oldStatus == r.oldStatus && e.content.newStatus == r.newStatus
    && e.content.witnesses == r.witnesses && e.content.timestamp == now
    && e.content.signature == if crypto.signer.Some? then crypto.signer.value(e.content.(signature := "")) else ""
  }

  lemma NextEntryAttests(crypto: Crypto, entries: seq<Entry>, r: Request, now: real)
    ensures Attests(crypto, NextEntry(crypto, entries, r, now), r, now)
  {
    var e := NextEntry(crypto, entries, r, now);
    assert e.content.(signature := "") == Content(|entries|, now, r.peerId, r.oldStatus, r.newStatus, r.witnesses, LastHash(entries), "");
  }

  /** A verifying chain stays verifying through an append exactly when the new signature verifies;
      a signer that the verifier does not accept therefore blocks every later append. */
  lemma AppendKeepsChainExactly(crypto: Crypto, entries: seq<Entry>, r: Request, now: real)
    requires ChainOk(crypto, entries)
    ensures ChainOk(crypto, entries + [NextEntry(crypto, entries, r, now)]) <==>
            SignatureOk(crypto, NextEntry(crypto, entries, r, now).content)
  {
    var e := NextEntry(crypto, entries, r, now);
    var longer := entries + [e];
    var n := |entries|;
    assert longer[..n] == entries;
    forall i | 0 <= i < n
      ensures LinkOk(crypto, longer, i)
    {
      assert longer[..i] == entries[..i];
      assert LinkOk(crypto, entries, i);
    }
    assert LinkOk(crypto, longer, n) <==> SignatureOk(crypto, e.content);
  }

  /** Tamper evidence: two verifying chains that end in the same hash are equal, entry by entry. */
  lemma {:induction false} LastHashDeterminesChain(crypto: Crypto, a: seq<Entry>, b: seq<Entry>)
    requires Injective(crypto) && ChainOk(crypto, a) && ChainOk(crypto, b)
    requires a != [] && b != [] && LastHash(a) == LastHash(b)
    ensures a == b
  {
    var m, n := |a| - 1, |b| - 1;
    assert LinkOk(crypto, a, m) && LinkOk(crypto, b, n);
    assert a[m] == b[n] && m == n;
    assert a == a[..m] + [a[m]] && b == b[..m] + [b[m]];
    if m > 0 {
      PrefixOk(crypto, a, m);
      PrefixOk(crypto, b, m);
      LastHashDeterminesChain(crypto, a[..m], b[..m]);
    }
  }

  lemma PrefixOk(crypto: Crypto, a: seq<Entry>, m: nat)
    requires ChainOk(crypto, a) && m <= |a|
    ensures ChainOk(crypto, a[..m])
  {
    forall i | 0 <= i < m
      ensures LinkOk(crypto, a[..m], i)
    {
      assert a[..m][..i] == a[..i];
      assert LinkOk(crypto, a, i);
    }
  }

  /** Changing any single entry of a verifying chain, its stored hash included, without touching the
      final hash breaks verification. */
  lemma EditsAreDetected(crypto: Crypto, a: seq<Entry>, i: nat, e: Entry)
    requires Injective(crypto) && ChainOk(crypto, a) && i < |a| && e != a[i]
    requires i < |a| - 1 || e.hash == a[i].hash
    ensures !ChainOk(crypto, a[i := e])
  {
    var edited := a[i := e];
    assert edited[i] == e;
    if ChainOk(crypto, edited) {
      LastHashDeterminesChain(crypto, edited, a);
    }
  }

  // ---- many appends ----

  function AppendAll(crypto: Crypto, entries: seq<Entry>, rs: seq<Request>, now: real): seq<Entry>
    decreases |rs|
  {
    if rs == [] then entries
    else AppendAll(crypto, entries + [NextEntry(crypto, entries, rs[0], now)], rs[1..], now)
  }

  /** The signer produces only signatures that the verifier accepts. */
  ghost predicate SignerSound(crypto: Crypto) {
    forall content: Content :: SignatureOk(crypto,
      content.(signature := if crypto.signer.Some? then crypto.signer.value(Unsigned(content)) else ""))
  }

  lemma AppendKeepsChain(crypto: Crypto, entries: seq<Entry>, r: Request, now: real)
    requires SignerSound(crypto) && ChainOk(crypto, entries)
    ensures ChainOk(crypto, entries + [NextEntry(crypto, entries, r, now)])
  {
    AppendKeepsChainExactly(crypto, entries, r, now);
    var provisional := Content(|entries|, now, r.peerId, r.oldStatus, r.newStatus, r.witnesses, LastHash(entries), "");
    assert Unsigned(provisional) == provisional;
    assert SignatureOk(crypto,
      provisional.(signature := if crypto.signer.Some? then crypto.signer.value(Unsigned(provisional)) else ""));
  }

  lemma {:induction false} AppendAllKeepsChain(crypto: Crypto, entries: seq<Entry>, rs: seq<Request>, now: real)
    requires SignerSound(crypto) && ChainOk(crypto, entries)
    ensures ChainOk(crypto, AppendAll(crypto, entries, rs, now))
    ensures |AppendAll(crypto, entries, rs, now)| == |entries| + |rs|
    ensures AppendAll(crypto, entries, rs, now)[..|entries|] == entries
    decreases |rs|
  {
    if rs != [] {
      AppendKeepsChain(crypto, entries, rs[0], now);
      var longer := entries + [NextEntry(crypto, entries, rs[0], now)];
      AppendAllKeepsChain(crypto, longer, rs[1..], now);
      var r := AppendAll(crypto, entries, rs, now);
      assert r[..|entries|] == r[..|longer|][..|entries|];
    }
  }

  lemma {:induction false} AppendAllJoin(crypto: Crypto, entries: seq<Entry>, a: seq<Request>, b: seq<Request>, now: real)
    ensures AppendAll(crypto, AppendAll(crypto, entries, a, now), b, now) == AppendAll(crypto, entries, a + b, now)
    decreases |a|
  {
    if a == [] {
      assert a + b == b;
    } else {
      assert (a + b)[1..] == a[1..] + b;
      AppendAllJoin(crypto, entries + [NextEntry(crypto, entries, a[0], now)], a[1..], b, now);
    }
  }

  // ---- the durable file ----

  datatype AuditError = ChainIntegrity | Unreadable | WriteFailed

  /** What happens to one row: it reaches the file and the call succeeds; nothing is written; the whole
      row reaches the file and the call fails afterwards (for instance in fsync); everything but the
      final newline reaches it; or only part of the text does. */
  datatype Io = Written | NothingWritten | WrittenThenFailed | Unterminated | Torn

  /** A line of the file: a row with the content and the hash stored with it, or text that is no row. */
  datatype Line = Row(entry: Entry) | Junk

  /** The file: terminated lines, and perhaps a last one without its newline. Whatever is written next
      continues that last line, which is then no row. */
  datatype File = File(lines: seq<Line>, open: Option<Line>)

  function AllLines(f: File): seq<Line> {
    if f.open.Some? then f.lines + [f.open.value] else f.lines
  }

  function Write(f: File, e: Entry, io: Io): File {
    var text := if f.open.Some? then Junk else Row(e);
    match io
    case NothingWritten => f
    case Written => File(f.lines + [text], None)
    case WrittenThenFailed => File(f.lines + [text], None)
    case Unterminated => File(f.lines, Some(text))
    case Torn => File(f.lines, Some(Junk))
  }

  function Replay(crypto: Crypto, lines: seq<Line>): Result<seq<Entry>, AuditError> {
    if lines == [] then Ok([])
    else
      var front := Replay(crypto, lines[..|lines| - 1]);
      var line := lines[|lines| - 1];
      if front.Err? then front
      else if line.Junk? then Err(Unreadable)
      else if crypto.hash(line.entry.content) != line.entry.hash || !SignatureOk(crypto, line.entry.content) then
        Err(ChainIntegrity)
      else Ok(front.value + [Entry(line.entry.content, crypto.hash(line.entry.content))])
  }

  /** Opening a log on an existing file: replay every line, then verify the chain. */
  ghost function Reopen(crypto: Crypto, f: File): Result<seq<Entry>, AuditError> {
    var replayed := Replay(crypto, AllLines(f));
    if replayed.Err? then replayed
    else if ChainOk(crypto, replayed.value) then replayed
    else Err(ChainIntegrity)
  }

  function RowsOf(entries: seq<Entry>): seq<Line> {
    seq(|entries|, i requires 0 <= i < |entries| => Row(entries[i]))
  }

  lemma {:induction false} ReplayCopies(crypto: Crypto, lines: seq<Line>)
    ensures Replay(crypto, lines).Ok? ==> lines == RowsOf(Replay(crypto, lines).value)
  {
    if lines != [] {
      var n := |lines| - 1;
      ReplayCopies(crypto, lines[..n]);
      assert lines == lines[..n] + [lines[n]];
    }
  }

  lemma {:induction false} ReplayAccepts(crypto: Crypto, entries: seq<Entry>)
    requires ChainOk(crypto, entries)
    ensures Replay(crypto, RowsOf(entries)) == Ok(entries)
  {
    if entries != [] {
      var n := |entries| - 1;
      PrefixOk(crypto, entries, n);
      ReplayAccepts(crypto, entries[..n]);
      assert RowsOf(entries)[..n] == RowsOf(entries[..n]);
      assert LinkOk(crypto, entries, n);
      assert entries == entries[..n] + [entries[n]];
    }
  }

  /** Reopening succeeds exactly on a file whose lines are the rows of a verifying chain, and then yields
      exactly that chain. */
  lemma ReopenExactly(crypto: Crypto, f: File, entries: seq<Entry>)
    ensures Reopen(crypto, f) == Ok(entries) <==> AllLines(f) == RowsOf(entries) && ChainOk(crypto, entries)
  {
    ReplayCopies(crypto, AllLines(f));
    if ChainOk(crypto, entries) {
      ReplayAccepts(crypto, entries);
    }
  }

  datatype Attempt = Attempt(request: Request, now: real, io: Io)

  /** The in-memory chain and the file after a sequence of append attempts. */
  ghost function Attempts(crypto: Crypto, entries: seq<Entry>, f: File, attempts: seq<Attempt>): (seq<Entry>, File)
    decreases |attempts|
  {
    if attempts == [] || !ChainOk(crypto, entries) then (entries, f)
    else
      var a := attempts[0];
      var e := NextEntry(crypto, entries, a.request, a.now);
      Attempts(crypto, if a.io == Written then entries + [e] else entries, Write(f, e, a.io), attempts[1..])
  }

  /** How many of these attempts failed and yet left something in the file. */
  ghost function FailedWrites(crypto: Crypto, entries: seq<Entry>, attempts: seq<Attempt>): nat
    decreases |attempts|
  {
    if attempts == [] || !ChainOk(crypto, entries) then 0
    else
      var a := attempts[0];
      var e := NextEntry(crypto, entries, a.request, a.now);
      (if a.io == Written || a.io == NothingWritten then 0 else 1)
      + FailedWrites(crypto, if a.io == Written then entries + [e] else entries, attempts[1..])
  }

  /** The file is exactly the chain. */
  ghost predicate Mirrors(f: File, entries: seq<Entry>) {
    f.open.None? && f.lines == RowsOf(entries)
  }

  /** The file has something that the chain has not. */
  ghost predicate Exceeds(f: File, entries: seq<Entry>) {
    Junk in AllLines(f) || |AllLines(f)| > |entries|
  }

  lemma WriteKeepsShape(f: File, entries: seq<Entry>, e: Entry, io: Io)
    ensures
      var f1, es := Write(f, e, io), if io == Written then entries + [e] else entries;
      && (Mirrors(f, entries) && (io == Written || io == NothingWritten) ==> Mirrors(f1, es))
      && (Mirrors(f, entries) && io != Written && io != NothingWritten ==> Exceeds(f1, es))
      && (Exceeds(f, entries) ==> Exceeds(f1, es))
  {
    var f1 := Write(f, e, io);
    assert RowsOf(entries + [e]) == RowsOf(entries) + [Row(e)];
    if Exceeds(f, entries) && Junk in AllLines(f) && Junk !in f.lines {
      assert f.open == Some(Junk);
    }
    if f.open.Some? && io != NothingWritten {
      assert Junk in AllLines(f1);
    }
  }

  lemma {:induction false} AttemptsShape(crypto: Crypto, entries: seq<Entry>, f: File, attempts: seq<Attempt>)
    ensures
      var (es, end) := Attempts(crypto, entries, f, attempts);
      && (Mirrors(f, entries) && FailedWrites(crypto, entries, attempts) == 0 ==> Mirrors(end, es))
      && (Mirrors(f, entries) && FailedWrites(crypto, entries, attempts) > 0 ==> Exceeds(end, es))
      && (Exceeds(f, entries) ==> Exceeds(end, es))
    decreases |attempts|
  {
    hide ChainOk;
    hide Mirrors;
    hide Exceeds;
    hide Write;
    if attempts != [] && ChainOk(crypto, entries) {
      var a := attempts[0];
      var e := NextEntry(crypto, entries, a.request, a.now);
      WriteKeepsShape(f, entries, e, a.io);
      AttemptsShape(crypto, if a.io == Written then entries + [e] else entries, Write(f, e, a.io), attempts[1..]);
    }
  }

  function EmptyFile(): File {
    File([], None)
  }

  /** Reopening the file rebuilds exactly the in-memory chain if and only if that chain verifies and no
      failed append left anything in the file, be it a whole row or part of one, whatever the signer and
      the verifier. */
  lemma ReplayRebuildsExactly(crypto: Crypto, attempts: seq<Attempt>)
    ensures
      var (es, f) := Attempts(crypto, [], EmptyFile(), attempts);
      Reopen(crypto, f) == Ok(es) <==> ChainOk(crypto, es) && FailedWrites(crypto, [], attempts) == 0
  {
    hide ChainOk;
    hide Reopen;
    assert Mirrors(EmptyFile(), []);
    AttemptsShape(crypto, [], EmptyFile(), attempts);
    var (es, f) := Attempts(crypto, [], EmptyFile(), attempts);
    ReopenExactly(crypto, f, es);
  }

  /** The append left something in the file although it failed. */
  predicate LeavesTrace(io: Io) {
    io != Written && io != NothingWritten
  }

  lemma {:induction false} AttemptsKeepChain(crypto: Crypto, entries: seq<Entry>, f: File, attempts: seq<Attempt>)
    requires SignerSound(crypto) && ChainOk(crypto, entries)
    ensures ChainOk(crypto, Attempts(crypto, entries, f, attempts).0)
    ensures FailedWrites(crypto, entries, attempts) == 0 <==> forall i :: 0 <= i < |attempts| ==> !LeavesTrace(attempts[i].io)
    decreases |attempts|
  {
    hide ChainOk;
    if attempts != [] {
      var a := attempts[0];
      var e := NextEntry(crypto, entries, a.request, a.now);
      assert attempts == [a] + attempts[1..];
      AppendKeepsChain(crypto, entries, a.request, a.now);
      AttemptsKeepChain(crypto, if a.io == Written then entries + [e] else entries, Write(f, e, a.io), attempts[1..]);
    }
  }

  /** With a signer that the verifier accepts, the chain always verifies, so only the writes matter. */
  lemma SoundLogsReopen(crypto: Crypto, attempts: seq<Attempt>)
    requires SignerSound(crypto)
    ensures
      var (es, f) := Attempts(crypto, [], EmptyFile(), attempts);
      Reopen(crypto, f) == Ok(es) <==> forall i :: 0 <= i < |attempts| ==> !LeavesTrace(attempts[i].io)
  {
    hide Reopen;
    ReplayRebuildsExactly(crypto, attempts);
    AttemptsKeepChain(crypto, [], EmptyFile(), attempts);
  }

  /** The log object with its durable file. */
  class AuditLog {
    const crypto: Crypto
    var entries: seq<Entry>
    var file: File

    constructor (crypto: Crypto)
      ensures this.crypto == crypto && entries == [] && file == EmptyFile()
    {
      this.crypto := crypto;
      entries, file := [], EmptyFile();
    }

    /** Whether every link holds. */
    method VerifyChain() returns (ok: bool)
      ensures ok <==> ChainOk(crypto, entries)
      ensures ok <==> forall i :: 0 <= i < |entries| ==> LinkInFull(crypto, entries, i)
    {
      ChainInFull(crypto, entries);
      var previousHash := "";
      ok := true;
      for i := 0 to |entries|
        invariant previousHash == LastHash(entries[..i])
        invariant ok && forall j :: 0 <= j < i ==> LinkOk(crypto, entries, j)
      {
        var e := entries[i];
        if e.content.sequenceNumber != i || e.content.previousHash != previousHash
           || crypto.hash(e.content) != e.hash || !SignatureOk(crypto, e.content)
        {
          assert !LinkOk(crypto, entries, i);
          return false;
        }
        previousHash := e.hash;
        assert entries[..i + 1][..i] == entries[..i];
      }
    }

    /** Verify, persist, then advance memory; memory and file move together unless the write
        itself misbehaves. */
    method Append(r: Request, now: real, io: Io) returns (res: Result<Entry, AuditError>)
      modifies this
      ensures !old(ChainOk(crypto, entries)) ==> res == Err(ChainIntegrity) && entries == old(entries) && file == old(file)
      ensures old(ChainOk(crypto, entries)) ==>
        var e := NextEntry(crypto, old(entries), r, now);
        && file == Write(old(file), e, io)
        && (io == Written ==> res == Ok(e) && entries == old(entries) + [e])
        && (io != Written ==> res == Err(WriteFailed) && entries == old(entries))
      ensures Mirrors(old(file), old(entries)) && !LeavesTrace(io) ==> Mirrors(file, entries)
      ensures res.Ok? ==> Attests(crypto, res.value, r, now)
    {
      NextEntryAttests(crypto, entries, r, now);
      var ok := VerifyChain();
      if !ok {
        return Err(ChainIntegrity);
      }
      var prev := if |entries| > 0 then entries[|entries| - 1].hash else "";
      var provisional := Content(|entries|, now, r.peerId, r.oldStatus, r.newStatus, r.witnesses, prev, "");
      var signature := "";
      if crypto.signer.Some? {
        signature := crypto.signer.value(provisional);
      }
      var content := provisional.(signature := signature);
      var e := Entry(content, crypto.hash(content));
      file := Write(file, e, io);
      WriteKeepsShape(old(file), old(entries), e, io);
      if io != Written {
        return Err(WriteFailed);
      }
      entries := entries + [e];
      return Ok(e);
    }
  }
}
