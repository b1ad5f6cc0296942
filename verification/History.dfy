/** The per-peer message history: one encrypted file per peer in one directory, rewritten through a temporary
    file and a rename. */
module Histories {
  import opened Prelude
  import opened Runs
  import opened Splitting
  import Sessions

  const NONCE_SIZE := 12
  const SUFFIX := ".enc"

  datatype StoredMsg = StoredMsg(
    id: string,
    sender: string,
    senderName: string,
    content: string,
    timestamp: int,
    isOwn: bool)

  datatype Node = Directory | File(data: bytes)

  /** The history directory: what each name in it stands for. */
  type Files = map<string, Node>

  /** The cipher, the JSON coding of a message list, and the key derived for each peer. */
  datatype Env = Env(
    aead: Sessions.Aead,
    marshal: seq<StoredMsg> -> bytes,
    unmarshal: bytes -> Option<seq<StoredMsg>>,
    keyFor: string -> bytes)

  ghost predicate Correct(env: Env) {
    && Sessions.Correct(env.aead)
    && forall msgs :: env.unmarshal(env.marshal(msgs)) == Some(msgs)
  }

  datatype Failure = InvalidPeerId | ReadFailed | TooShort | NotDecryptable | NotJson | WriteFailed | RemoveFailed

  /** Whether two dots in a row occur. */
  predicate HasDotDot(s: string) {
    exists i | 0 <= i < |s| - 1 :: s[i] == '.' && s[i + 1] == '.'
  }

  /** Peer ids that name a file in the directory and nothing else. */
  predicate ValidPeerId(id: string) {
    id != "" && id != "." && id != ".." && '/' !in id && '\\' !in id && !HasDotDot(id)
  }

  function FileName(id: string): string {
    id + SUFFIX
  }

  /** `part` occurs in `s`. */
  ghost predicate Contains(s: string, part: string) {
    exists a, b :: s == a + part + b
  }

  lemma DotDotExactly(s: string)
    ensures HasDotDot(s) <==> Contains(s, "..")
  {
    if i :| 0 <= i < |s| - 1 && s[i] == '.' && s[i + 1] == '.' {
      assert s == s[..i] + ".." + s[i + 2..];
    }
    if a, b :| s == a + ".." + b {
      assert s[|a|] == '.' && s[|a| + 1] == '.';
    }
  }

  /** The components of a path, for either kind of separator. */
  predicate IsOneComponent(name: string) {
    SplitOn(name, '/') == [name] && SplitOn(name, '\\') == [name] && name !in {"", ".", ".."}
  }

  /** Exactly the ids that are one path component without ".." in them are valid, and then the file name is one
      component too: whatever the directory, the path stays inside it. */
  lemma ValidPeerIdExactly(id: string)
    ensures ValidPeerId(id) <==> IsOneComponent(id) && !Contains(id, "..")
    ensures ValidPeerId(id) ==> IsOneComponent(FileName(id))
  {
    DotDotExactly(id);
    OneComponent(id, '/');
    OneComponent(id, '\\');
    OneComponent(FileName(id), '/');
    OneComponent(FileName(id), '\\');
    assert SUFFIX[0] == '.' && SUFFIX[1] == 'e' && SUFFIX[2] == 'n' && SUFFIX[3] == 'c';
  }

  lemma OneComponent(name: string, separator: char)
    ensures SplitOn(name, separator) == [name] <==> separator !in name
  {
    SplitExactly(name, separator, [name]);
    assert [name][0] == name;
  }

  /** What the bytes of a history file mean to its owner. */
  function Parse(env: Env, id: string, data: bytes): Result<seq<StoredMsg>, Failure> {
    if |data| < NONCE_SIZE then Err(TooShort)
    else
      match env.aead.open(env.keyFor(id), data[..NONCE_SIZE], data[NONCE_SIZE..])
      case None => Err(NotDecryptable)
      case Some(plain) =>
        match env.unmarshal(plain)
        case None => Err(NotJson)
        case Some(msgs) => Ok(msgs)
  }

  /** Reads one history; a file that is not there is an empty history. `canRead` is false when the disk fails. */
  function ReadFile(env: Env, files: Files, id: string, canRead: bool): Result<seq<StoredMsg>, Failure> {
    if !ValidPeerId(id) then Err(InvalidPeerId)
    else if FileName(id) !in files then Ok([])
    else if !canRead || files[FileName(id)].Directory? then Err(ReadFailed)
    else Parse(env, id, files[FileName(id)].data)
  }

  function FileFor(env: Env, id: string, msgs: seq<StoredMsg>, nonce: bytes): bytes {
    nonce + env.aead.seal(env.keyFor(id), nonce, env.marshal(msgs))
  }

  lemma ParseUndoesFileFor(env: Env, id: string, msgs: seq<StoredMsg>, nonce: bytes)
    requires Correct(env) && |nonce| == NONCE_SIZE
    ensures Parse(env, id, FileFor(env, id, msgs, nonce)) == Ok(msgs)
  {
    var data := FileFor(env, id, msgs, nonce);
    assert data[..NONCE_SIZE] == nonce;
    assert data[NONCE_SIZE..] == env.aead.seal(env.keyFor(id), nonce, env.marshal(msgs));
  }

  /** The moments of a write: nothing yet, the temporary file created, some of it written, all of it written (and
      synced and closed), and renamed over the history file. */
  datatype Moment = Untouched | Created | Writing(written: bytes) | Written | Renamed

  function AtMoment(files: Files, temp: string, target: string, out: bytes, moment: Moment): Files {
    match moment
    case Untouched => files
    case Created => files[temp := File([])]
    case Writing(written) => files[temp := File(written)]
    case Written => files[temp := File(out)]
    case Renamed => (files - {temp})[target := File(out)]
  }

  /** Temporary names end in a digit and are new in the directory, as `CreateTemp` makes them. */
  predicate IsTempName(temp: string) {
    temp != "" && '0' <= temp[|temp| - 1] <= '9'
  }

  lemma TempIsNoHistory(temp: string, id: string)
    requires IsTempName(temp)
    ensures temp != FileName(id)
  {
    assert FileName(id)[|FileName(id)| - 1] == 'c';
  }

  /** Crash safety: whenever a write is cut off, every history file is still whole. The one being written is the
      old or the new one, and all others are as they were. */
  lemma CrashLeavesOldOrNew(files: Files, temp: string, id: string, out: bytes, moment: Moment)
    requires IsTempName(temp) && temp !in files
    ensures
      var after := AtMoment(files, temp, FileName(id), out, moment);
      && (if moment.Renamed? then FileName(id) in after && after[FileName(id)] == File(out)
          else FileName(id) in after <==> FileName(id) in files)
      && (!moment.Renamed? && FileName(id) in files ==> after[FileName(id)] == files[FileName(id)])
      && (forall other | other != id ::
            && (FileName(other) in after <==> FileName(other) in files)
            && (FileName(other) in files ==> after[FileName(other)] == files[FileName(other)]))
  {
    TempIsNoHistory(temp, id);
    var after := AtMoment(files, temp, FileName(id), out, moment);
    forall other | other != id
      ensures FileName(other) in after <==> FileName(other) in files
      ensures FileName(other) in files ==> after[FileName(other)] == files[FileName(other)]
    {
      TempIsNoHistory(temp, other);
      NamesDiffer(other, id);
    }
  }

  lemma NamesDiffer(a: string, b: string)
    ensures FileName(a) == FileName(b) <==> a == b
  {
    if FileName(a) == FileName(b) {
      assert |a| == |b|;
      assert FileName(a)[..|a|] == a && FileName(b)[..|a|] == b;
    }
  }

  /** How a write that is not cut off ends: with the rename, or with an error at an earlier moment, after which the
      temporary file is removed unless that fails too. */
  datatype Outcome = Succeeds | Fails(at: Moment, cleanedUp: bool)

  predicate Possible(outcome: Outcome) {
    outcome.Fails? ==> !outcome.at.Renamed?
  }

  function WriteFile(files: Files, temp: string, target: string, out: bytes, outcome: Outcome): Files {
    match outcome
    case Succeeds => AtMoment(files, temp, target, out, Renamed)
    case Fails(moment, cleanedUp) =>
      var after := AtMoment(files, temp, target, out, moment);
      if cleanedUp then after - {temp} else after
  }

  /** What the operating system contributes to one save: a random nonce, a new temporary name, and what fails. */
  datatype Io = Io(canRead: bool, nonce: bytes, temp: string, outcome: Outcome)

  predicate IoOk(files: Files, io: Io) {
    |io.nonce| == NONCE_SIZE && IsTempName(io.temp) && io.temp !in files && Possible(io.outcome)
  }

  /** Saving appends to what can be read; it never touches a file that cannot be read. */
  function Save(env: Env, files: Files, id: string, msg: StoredMsg, io: Io): (Files, Option<Failure>) {
    match ReadFile(env, files, id, io.canRead)
    case Err(failure) => (files, Some(failure))
    case Ok(msgs) =>
      (WriteFile(files, io.temp, FileName(id), FileFor(env, id, msgs + [msg], io.nonce), io.outcome),
       if io.outcome.Succeeds? then None else Some(WriteFailed))
  }

  function Clear(files: Files, id: string, canRemove: bool): (Files, Option<Failure>) {
    if !ValidPeerId(id) then (files, Some(InvalidPeerId))
    else if FileName(id) !in files then (files, None)
    else if canRemove then (files - {FileName(id)}, None)
    else (files, Some(RemoveFailed))
  }

  lemma TempReadsNothing(env: Env, files: Files, temp: string, node: Node, other: string, canRead: bool)
    requires IsTempName(temp) && temp !in files
    ensures ReadFile(env, files[temp := node], other, canRead) == ReadFile(env, files, other, canRead)
  {
    TempIsNoHistory(temp, other);
  }

  /** When a save succeeds, what it then leaves in the directory, and what each failure is. A save succeeds exactly when
      the existing history can be read and the disk completes the write; then the file holds the old messages and
      the new one, and the temporary file is gone. A save that fails is invisible to every reader, and leaves
      nothing at all behind unless the removal of the temporary file fails too. */
  lemma SaveExactly(env: Env, files: Files, id: string, msg: StoredMsg, io: Io)
    requires IoOk(files, io)
    ensures
      var read := ReadFile(env, files, id, io.canRead);
      var (after, failure) := Save(env, files, id, msg, io);
      && (failure == None <==> read.Ok? && io.outcome.Succeeds?)
      && (read.Err? ==> failure == Some(read.error) && after == files)
      && (read.Ok? && io.outcome.Fails? ==> failure == Some(WriteFailed))
      && (failure == None ==>
            var sealed := env.aead.seal(env.keyFor(id), io.nonce, env.marshal(read.value + [msg]));
            after == files[id + ".enc" := File(io.nonce + sealed)])
      && (io.outcome.Fails? && io.outcome.cleanedUp ==> after == files)
      && (failure.Some? ==>
            forall other, canRead :: ReadFile(env, after, other, canRead) == ReadFile(env, files, other, canRead))
  {
    var read := ReadFile(env, files, id, io.canRead);
    var (after, failure) := Save(env, files, id, msg, io);
    TempIsNoHistory(io.temp, id);
    if failure.Some? && read.Ok? {
      forall other, canRead ensures ReadFile(env, after, other, canRead) == ReadFile(env, files, other, canRead) {
        if io.temp in after {
          assert after == files[io.temp := after[io.temp]];
          TempReadsNothing(env, files, io.temp, after[io.temp], other, canRead);
        } else {
          assert after == files;
        }
      }
    }
  }

  /** When a clear succeeds: the id is valid, and there is nothing to remove or the disk removes it. Then the history is
      empty for every reader; otherwise nothing has changed. Other histories are untouched in any case. */
  lemma ClearExactly(env: Env, files: Files, id: string, canRemove: bool)
    ensures
      var (after, failure) := Clear(files, id, canRemove);
      && (failure == None <==> ValidPeerId(id) && (FileName(id) in files ==> canRemove))
      && (failure == Some(InvalidPeerId) <==> !ValidPeerId(id))
      && (failure.Some? ==> after == files && (ValidPeerId(id) ==> failure == Some(RemoveFailed)))
      && (failure == None ==> forall canRead :: ReadFile(env, after, id, canRead) == Ok([]))
      && (forall other, canRead | other != id ::
            ReadFile(env, after, other, canRead) == ReadFile(env, files, other, canRead))
  {
    forall other | other != id ensures FileName(other) != FileName(id) {
      NamesDiffer(other, id);
    }
  }

  /** The names of history files: the suffix, after at least nothing. */
  predicate IsHistoryName(name: string) {
    |name| >= |SUFFIX| && name[|name| - |SUFFIX|..] == SUFFIX
  }

  function PeerOf(name: string): string
    requires IsHistoryName(name)
  {
    name[..|name| - |SUFFIX|]
  }

  lemma PeerOfFileName(id: string)
    ensures IsHistoryName(FileName(id)) && PeerOf(FileName(id)) == id
  {
  }

  lemma FileNameOfPeer(name: string)
    requires IsHistoryName(name)
    ensures FileName(PeerOf(name)) == name
  {
  }

  /** `id` has a history that can be read and is not empty. */
  predicate Shown(env: Env, files: Files, id: string, canRead: bool) {
    var r := ReadFile(env, files, id, canRead);
    r.Ok? && r.value != []
  }

  class HistoryStore {
    const env: Env
    var files: Files

    constructor (env: Env)
      ensures this.env == env && files == map[]
    {
      this.env := env;
      files := map[];
    }

    method SaveMessage(id: string, msg: StoredMsg, io: Io) returns (failure: Option<Failure>)
      requires IoOk(files, io)
      modifies this
      ensures (files, failure) == Save(env, old(files), id, msg, io)
    {
      var read := ReadFile(env, files, id, io.canRead);
      if read.Err? {
        return Some(read.error);
      }
      var out := FileFor(env, id, read.value + [msg], io.nonce);
      if io.outcome.Fails? {
        files := AtMoment(files, io.temp, FileName(id), out, io.outcome.at);
        if io.outcome.cleanedUp {
          files := files - {io.temp};
        }
        return Some(WriteFailed);
      }
      files := files[io.temp := File(out)];
      var written := files[io.temp];
      files := (files - {io.temp})[FileName(id) := written];
      TempIsNoHistory(io.temp, id);
      assert files == AtMoment(old(files), io.temp, FileName(id), out, Renamed);
      return None;
    }

    /** Reads one history. */
    method LoadHistory(id: string, canRead: bool) returns (r: Result<seq<StoredMsg>, Failure>)
      ensures r == Err(InvalidPeerId) <==> !ValidPeerId(id)
      ensures ValidPeerId(id) && FileName(id) !in files ==> r == Ok([])
      ensures r == Err(ReadFailed) <==>
              ValidPeerId(id) && FileName(id) in files && (!canRead || files[FileName(id)].Directory?)
      ensures ValidPeerId(id) && FileName(id) in files && canRead && files[FileName(id)].File? ==>
                var data := files[FileName(id)].data;
                var plain := if |data| < NONCE_SIZE then None
                             else env.aead.open(env.keyFor(id), data[..NONCE_SIZE], data[NONCE_SIZE..]);
                && (r == Err(TooShort) <==> |data| < NONCE_SIZE)
                && (r == Err(NotDecryptable) <==> |data| >= NONCE_SIZE && plain.None?)
                && (r == Err(NotJson) <==> plain.Some? && env.unmarshal(plain.value).None?)
                && (forall msgs :: r == Ok(msgs) <==> plain.Some? && env.unmarshal(plain.value) == Some(msgs))
      ensures r == ReadFile(env, files, id, canRead)
    {
      if !ValidPeerId(id) {
        return Err(InvalidPeerId);
      }
      if FileName(id) !in files {
        return Ok([]);
      }
      if !canRead || files[FileName(id)].Directory? {
        return Err(ReadFailed);
      }
      var data := files[FileName(id)].data;
      if |data| < NONCE_SIZE {
        return Err(TooShort);
      }
      var plain := env.aead.open(env.keyFor(id), data[..NONCE_SIZE], data[NONCE_SIZE..]);
      if plain.None? {
        return Err(NotDecryptable);
      }
      var msgs := env.unmarshal(plain.value);
      if msgs.None? {
        return Err(NotJson);
      }
      return Ok(msgs.value);
    }

    method ClearHistory(id: string, canRemove: bool) returns (failure: Option<Failure>)
      modifies this
      ensures (files, failure) == Clear(old(files), id, canRemove)
    {
      if !ValidPeerId(id) {
        return Some(InvalidPeerId);
      }
      if FileName(id) !in files {
        return None;
      }
      if !canRemove {
        return Some(RemoveFailed);
      }
      files := files - {FileName(id)};
      return None;
    }

    /** Scans the directory. The result is exactly the per-peer loads, restricted to histories that can be read
        and are not empty. */
    method LoadAllHistories(canRead: string -> bool) returns (all: map<string, seq<StoredMsg>>)
      ensures forall id, msgs :: id in all && all[id] == msgs <==>
                msgs != [] && ReadFile(env, files, id, canRead(id)) == Ok(msgs)
    {
      all := map[];
      var left := files.Keys;
      while left != {}
        invariant left <= files.Keys
        invariant forall id | id in all :: ReadFile(env, files, id, canRead(id)) == Ok(all[id]) && all[id] != []
        invariant forall id | FileName(id) in files && FileName(id) !in left && Shown(env, files, id, canRead(id)) ::
          id in all
      {
        var name :| name in left;
        if files[name].File? && IsHistoryName(name) {
          var id := PeerOf(name);
          FileNameOfPeer(name);
          var read := ReadFile(env, files, id, canRead(id));
          if read.Ok? && |read.value| > 0 {
            all := all[id := read.value];
          }
        }
        forall id | FileName(id) == name ensures IsHistoryName(name) && PeerOf(name) == id {
          PeerOfFileName(id);
        }
        left := left - {name};
      }
      forall id ensures id in all <==> Shown(env, files, id, canRead(id)) {
        assert FileName(id) !in files ==> !Shown(env, files, id, canRead(id));
      }
    }
  }

  /** The plain specification: per peer, the messages saved since the last clear, and the peers whose file was
      damaged since then. It knows nothing of files. */
  datatype Plain = Plain(saved: map<string, seq<StoredMsg>>, damaged: set<string>)

  /** The directory, beside the plain specification. */
  datatype State = State(env: Env, files: Files, plain: Plain)

  datatype Event =
    | Saves(id: string, msg: StoredMsg, io: Io)
    | IsCutOff(id: string, msg: StoredMsg, io: Io, moment: Moment)
    | Loads(id: string)
    | Clears(id: string, canRemove: bool)
    | IsDamaged(id: string, node: Node)

  function Saved(p: Plain, id: string): seq<StoredMsg> {
    if id in p.saved then p.saved[id] else []
  }

  /** There is something to read or remove for this peer. */
  predicate Exists(p: Plain, id: string) {
    id in p.saved || id in p.damaged
  }

  /** A save gets as far as writing: the id is valid, the history is not damaged, and the disk reads it if it exists. */
  predicate CanWrite(p: Plain, id: string, io: Io) {
    ValidPeerId(id) && id !in p.damaged && (id in p.saved ==> io.canRead)
  }

  function Append(p: Plain, id: string, msg: StoredMsg): Plain {
    p.(saved := p.saved[id := Saved(p, id) + [msg]])
  }

  /** What each event means, as the disk decides it. A save counts once the rename has happened, also if the program is
      cut off right after it. */
  function PlainStep(p: Plain, ev: Event): Plain {
    match ev
    case Saves(id, msg, io) => if CanWrite(p, id, io) && io.outcome.Succeeds? then Append(p, id, msg) else p
    case IsCutOff(id, msg, io, moment) => if CanWrite(p, id, io) && moment.Renamed? then Append(p, id, msg) else p
    case Loads(_) => p
    case Clears(id, canRemove) =>
      if ValidPeerId(id) && (Exists(p, id) ==> canRemove) then Plain(p.saved - {id}, p.damaged - {id}) else p
    case IsDamaged(id, _) => p.(damaged := p.damaged + {id})
  }

  /** Damage from outside leaves something that cannot be read as a history. */
  ghost predicate Enabled(s: State, ev: Event) {
    match ev
    case Saves(_, _, io) => IoOk(s.files, io)
    case IsCutOff(_, _, io, _) => IoOk(s.files, io)
    case IsDamaged(id, node) => ReadFile(s.env, s.files[FileName(id) := node], id, true).Err?
    case _ => true
  }

  /** What each event does to the directory. */
  ghost function FilesAfter(s: State, ev: Event): Files
    requires Enabled(s, ev)
  {
    match ev
    case Saves(id, msg, io) => Save(s.env, s.files, id, msg, io).0
    case IsCutOff(id, msg, io, moment) =>
      (match ReadFile(s.env, s.files, id, io.canRead)
       case Err(_) => s.files
       case Ok(msgs) =>
         AtMoment(s.files, io.temp, FileName(id), FileFor(s.env, id, msgs + [msg], io.nonce), moment))
    case Loads(_) => s.files
    case Clears(id, canRemove) => Clear(s.files, id, canRemove).0
    case IsDamaged(id, node) => s.files[FileName(id) := node]
  }

  ghost function Step(s: State, ev: Event): State
    requires Enabled(s, ev)
  {
    State(s.env, FilesAfter(s, ev), PlainStep(s.plain, ev))
  }

  /** A history can be read unless it was damaged, and what can be read is what was saved. */
  ghost predicate Reflects(s: State, id: string) {
    var r := ReadFile(s.env, s.files, id, true);
    && (ValidPeerId(id) ==> (FileName(id) in s.files <==> Exists(s.plain, id)))
    && (ValidPeerId(id) ==> (r.Ok? <==> id !in s.plain.damaged))
    && (r.Ok? ==> r.value == Saved(s.plain, id))
  }

  ghost predicate Inv(s: State) {
    forall id :: Reflects(s, id)
  }

  lemma SameFileReadsTheSame(env: Env, files: Files, after: Files, id: string, canRead: bool)
    requires FileName(id) in after <==> FileName(id) in files
    requires FileName(id) in files ==> after[FileName(id)] == files[FileName(id)]
    ensures ReadFile(env, after, id, canRead) == ReadFile(env, files, id, canRead)
  {
  }

  /** A write, cut off or not, seen from every peer. */
  lemma MomentReads(env: Env, files: Files, id: string, msgs: seq<StoredMsg>, io: Io, moment: Moment, other: string)
    requires Correct(env) && IoOk(files, io) && ValidPeerId(id)
    ensures
      var after := AtMoment(files, io.temp, FileName(id), FileFor(env, id, msgs, io.nonce), moment);
      ReadFile(env, after, other, true) ==
        if moment.Renamed? && other == id then Ok(msgs) else ReadFile(env, files, other, true)
    ensures
      var after := AtMoment(files, io.temp, FileName(id), FileFor(env, id, msgs, io.nonce), moment);
      FileName(other) in after <==> (moment.Renamed? && other == id) || FileName(other) in files
  {
    var out := FileFor(env, id, msgs, io.nonce);
    var after := AtMoment(files, io.temp, FileName(id), out, moment);
    CrashLeavesOldOrNew(files, io.temp, id, out, moment);
    if moment.Renamed? && other == id {
      ParseUndoesFileFor(env, id, msgs, io.nonce);
    } else {
      SameFileReadsTheSame(env, files, after, other, true);
    }
  }

  /** Removing a temporary file is invisible. */
  lemma CleanupReads(env: Env, files: Files, temp: string, other: string)
    requires IsTempName(temp)
    ensures ReadFile(env, files - {temp}, other, true) == ReadFile(env, files, other, true)
    ensures FileName(other) in files - {temp} <==> FileName(other) in files
  {
    TempIsNoHistory(temp, other);
    SameFileReadsTheSame(env, files, files - {temp}, other, true);
  }

  /** A read that succeeded on a failing disk gives what any read gives. */
  lemma ReadIsStable(env: Env, files: Files, id: string, canRead: bool)
    requires ReadFile(env, files, id, canRead).Ok?
    ensures ReadFile(env, files, id, true) == ReadFile(env, files, id, canRead) && ValidPeerId(id)
  {
  }

  /** Whether a save gets as far as writing is the same for the directory and for the plain specification. */
  lemma ReadsBeforeWriting(s: State, id: string, io: Io)
    requires Reflects(s, id)
    ensures ReadFile(s.env, s.files, id, io.canRead).Ok? <==> CanWrite(s.plain, id, io)
    ensures CanWrite(s.plain, id, io) ==> ReadFile(s.env, s.files, id, io.canRead) == Ok(Saved(s.plain, id))
  {
  }

  lemma SaveKeepsReflecting(s: State, id: string, msg: StoredMsg, io: Io, other: string)
    requires Correct(s.env) && Inv(s) && IoOk(s.files, io)
    ensures Reflects(Step(s, Saves(id, msg, io)), other)
  {
    assert Reflects(s, other) && Reflects(s, id);
    var read := ReadFile(s.env, s.files, id, io.canRead);
    ReadsBeforeWriting(s, id, io);
    if read.Ok? {
      var moment := if io.outcome.Succeeds? then Renamed else io.outcome.at;
      MomentReads(s.env, s.files, id, read.value + [msg], io, moment, other);
      var out := FileFor(s.env, id, read.value + [msg], io.nonce);
      CleanupReads(s.env, AtMoment(s.files, io.temp, FileName(id), out, moment), io.temp, other);
    }
  }

  lemma CutOffKeepsReflecting(s: State, id: string, msg: StoredMsg, io: Io, moment: Moment, other: string)
    requires Correct(s.env) && Inv(s) && IoOk(s.files, io)
    ensures Reflects(Step(s, IsCutOff(id, msg, io, moment)), other)
  {
    assert Reflects(s, other) && Reflects(s, id);
    var read := ReadFile(s.env, s.files, id, io.canRead);
    ReadsBeforeWriting(s, id, io);
    if read.Ok? {
      MomentReads(s.env, s.files, id, read.value + [msg], io, moment, other);
    }
  }

  lemma ClearKeepsReflecting(s: State, id: string, canRemove: bool, other: string)
    requires Inv(s)
    ensures Reflects(Step(s, Clears(id, canRemove)), other)
  {
    assert Reflects(s, other);
    NamesDiffer(id, other);
    var t := Step(s, Clears(id, canRemove));
    if other != id {
      SameFileReadsTheSame(s.env, s.files, t.files, other, true);
    }
  }

  lemma DamageKeepsReflecting(s: State, id: string, node: Node, other: string)
    requires Inv(s) && Enabled(s, IsDamaged(id, node))
    ensures Reflects(Step(s, IsDamaged(id, node)), other)
  {
    assert Reflects(s, other);
    NamesDiffer(id, other);
    var t := Step(s, IsDamaged(id, node));
    if other != id {
      SameFileReadsTheSame(s.env, s.files, t.files, other, true);
    }
  }

  lemma StepKeepsInv(s: State, ev: Event)
    requires Correct(s.env) && Inv(s) && Enabled(s, ev)
    ensures Inv(Step(s, ev))
  {
    forall other ensures Reflects(Step(s, ev), other) {
      match ev
      case Saves(id, msg, io) => SaveKeepsReflecting(s, id, msg, io, other);
      case IsCutOff(id, msg, io, moment) => CutOffKeepsReflecting(s, id, msg, io, moment, other);
      case Loads(_) => assert Reflects(s, other);
      case Clears(id, canRemove) => ClearKeepsReflecting(s, id, canRemove, other);
      case IsDamaged(id, node) => DamageKeepsReflecting(s, id, node, other);
    }
  }

  lemma {:induction false} RunKeepsInv(s: State, run: seq<Event>)
    requires Correct(s.env) && Inv(s) && Legal(Step, s, run)
    ensures Inv(Run(Step, s, run)) && Run(Step, s, run).env == s.env
    decreases |run|
  {
    if run != [] {
      StepKeepsInv(s, run[0]);
      RunKeepsInv(Step(s, run[0]), run[1..]);
    }
  }

  /** History refinement. Over any run of saves, loads and clears, with failing disks, crashes at any moment of a write
      and damaged files: the history of a valid peer can be read if and only if its file was not damaged
      since its last clear, and then it is exactly the messages saved since that clear, in order. */
  lemma HistoryIsWhatWasSaved(env: Env, run: seq<Event>, id: string)
    requires Correct(env) && Legal(Step, State(env, map[], Plain(map[], {})), run)
    ensures
      var s := Run(Step, State(env, map[], Plain(map[], {})), run);
      var r := ReadFile(env, s.files, id, true);
      && (ValidPeerId(id) ==> (r.Ok? <==> id !in s.plain.damaged))
      && (r.Ok? ==> r.value == Saved(s.plain, id))
  {
    var start := State(env, map[], Plain(map[], {}));
    assert forall other :: Reflects(start, other);
    RunKeepsInv(start, run);
    assert Reflects(Run(Step, start, run), id);
  }

  /** The event is not a clear of this history, nor damage to it. */
  predicate LeavesAlone(ev: Event, id: string) {
    !(ev.Clears? && ev.id == id) && !(ev.IsDamaged? && ev.id == id)
  }

  lemma UnreadableSurvivesStep(s: State, ev: Event, id: string)
    requires Enabled(s, ev) && LeavesAlone(ev, id) && ReadFile(s.env, s.files, id, true).Err? && FileName(id) in s.files
    ensures
      var t := Step(s, ev);
      && t.env == s.env && FileName(id) in t.files && t.files[FileName(id)] == s.files[FileName(id)]
      && ReadFile(t.env, t.files, id, true).Err?
  {
    match ev
    case Saves(other, msg, io) =>
      TempIsNoHistory(io.temp, id);
      NamesDiffer(other, id);
    case IsCutOff(other, msg, io, moment) =>
      TempIsNoHistory(io.temp, id);
      NamesDiffer(other, id);
    case Loads(_) =>
    case Clears(other, _) => NamesDiffer(other, id);
    case IsDamaged(other, _) => NamesDiffer(other, id);
  }

  /** A file that cannot be read is never overwritten: whatever is saved, for this peer or another, and wherever a
      write is cut off, the file stays byte for byte what it was until it is cleared. */
  lemma {:induction false} UnreadableIsKept(s: State, run: seq<Event>, id: string)
    requires Legal(Step, s, run) && forall i | 0 <= i < |run| :: LeavesAlone(run[i], id)
    requires ReadFile(s.env, s.files, id, true).Err? && FileName(id) in s.files
    ensures
      var t := Run(Step, s, run);
      FileName(id) in t.files && t.files[FileName(id)] == s.files[FileName(id)]
    decreases |run|
  {
    if run != [] {
      UnreadableSurvivesStep(s, run[0], id);
      UnreadableIsKept(Step(s, run[0]), run[1..], id);
    }
  }

  /** Saving and loading: a save that reports success is there, at the end, for the next load. */
  lemma LoadAfterSave(env: Env, files: Files, id: string, msg: StoredMsg, io: Io)
    requires Correct(env) && IoOk(files, io) && Save(env, files, id, msg, io).1.None?
    ensures ReadFile(env, files, id, true).Ok?
    ensures ReadFile(env, Save(env, files, id, msg, io).0, id, true) == Ok(ReadFile(env, files, id, true).value + [msg])
  {
    ReadIsStable(env, files, id, io.canRead);
    MomentReads(env, files, id, ReadFile(env, files, id, true).value + [msg], io, Renamed, id);
  }

  /** What the store reports after any run: a save, a clear and a load succeed exactly when the disk does its part on a
      history that is not damaged, and a load gives what was saved. */
  lemma ReportsFollowTheDisk(env: Env, run: seq<Event>, id: string, msg: StoredMsg, io: Io, canRemove: bool,
                             canRead: bool)
    requires Correct(env) && Legal(Step, State(env, map[], Plain(map[], {})), run)
    requires IoOk(Run(Step, State(env, map[], Plain(map[], {})), run).files, io)
    ensures
      var s := Run(Step, State(env, map[], Plain(map[], {})), run);
      && (Save(env, s.files, id, msg, io).1 == None <==> CanWrite(s.plain, id, io) && io.outcome.Succeeds?)
      && (Clear(s.files, id, canRemove).1 == None <==> ValidPeerId(id) && (Exists(s.plain, id) ==> canRemove))
      && (forall msgs :: ReadFile(env, s.files, id, canRead) == Ok(msgs) <==>
            && ValidPeerId(id) && id !in s.plain.damaged && (id in s.plain.saved ==> canRead)
            && msgs == Saved(s.plain, id))
  {
    var start := State(env, map[], Plain(map[], {}));
    assert forall other :: Reflects(start, other);
    RunKeepsInv(start, run);
    var s := Run(Step, start, run);
    assert Reflects(s, id);
    ReadsBeforeWriting(s, id, io);
    ReadsBeforeWriting(s, id, io.(canRead := canRead));
    SaveExactly(env, s.files, id, msg, io);
    ClearExactly(env, s.files, id, canRemove);
  }
}
