/** The replace/remove protocol over two stores: the credential store of the
    operating system and one connection file whose rename is the commit point.
    Every call into either may fail, and the process may stop between any two
    steps; each method then returns `Crashed` with the stores as they were. */
module ConnectionStore {
  import opened Prelude

  type Id = nat
  type Secret = string

  datatype Connection = Connection(origin: string, developmentLoopback: bool, workspace: string, membership: string)

  datatype SecretField = NoSecret | InNative | InFile(value: Secret)

  datatype Record = Record(id: Id, connection: Connection, secret: SecretField)

  /** The connection file as the next read would find it. */
  datatype ConnectionFile =
    | Absent
    | Good(record: Record)
    | Unidentified            // corrupt, too large or not private

  datatype Policy = NativeOnly | AllowPlaintextFile

  datatype Backend = BackendNone | BackendNative | BackendFile

  datatype StoreError =
    | Io
    | Unreadable
    | Randomness
    | RecordTooLarge
    | NativeStorageUnavailable
    | NativeFailed
    | SecretMissing
    | PlaintextFileUnsupported

  datatype Reply<+T> = Ok(value: T) | Err(error: StoreError) | Crashed

  datatype NativeReply = NativeOk | Unavailable | NoEntry | Failed

  datatype Replaced = Replaced(backend: Backend, staleSecretLeft: bool)

  datatype Removed = Nothing | Existing(staleSecretLeft: bool)

  datatype PreviousNative = NoPrevious | Known(id: Id) | Unknown

  /** What is saved: the connection with its secret, if one can be read. */
  datatype Saved = NotSaved | Saved(connection: Connection, secret: Option<Secret>) | Broken

  // ----- Runs -----

  datatype Op = DoReplace(connection: Connection, secret: Option<Secret>, policy: Policy) | DoRemove | DoLoad

  datatype Answer = Succeeded | Refused | Stopped

  /** What an operation that answered `answer` may have done to what is saved. */
  ghost predicate Effect(op: Op, answer: Answer, before: Saved, after: Saved) {
    var done := match op
                case DoReplace(connection, secret, _) => Saved.Saved(connection, secret)
                case DoRemove => NotSaved
                case DoLoad => before;
    match answer
    case Succeeded => after == done
    case Refused => after == before
    case Stopped => after == before || after == done
  }

  /** `after` can result from the operations, given their answers. */
  ghost predicate Explains(before: Saved, ops: seq<Op>, answers: seq<Answer>, after: Saved) {
    |ops| == |answers| &&
    if ops == [] then after == before
    else
      var n := |ops| - 1;
      exists middle :: Explains(before, ops[..n], answers[..n], middle) && Effect(ops[n], answers[n], middle, after)
  }

  lemma ExplainsMore(before: Saved, ops: seq<Op>, answers: seq<Answer>, middle: Saved,
                     op: Op, answer: Answer, after: Saved)
    requires Explains(before, ops, answers, middle) && Effect(op, answer, middle, after)
    ensures Explains(before, ops + [op], answers + [answer], after)
  {
    assert (ops + [op])[..|ops|] == ops && (answers + [answer])[..|answers|] == answers;
  }

  /** Without crashes the last success decides what is saved. */
  ghost function LastSuccess(before: Saved, ops: seq<Op>, answers: seq<Answer>): Saved
    requires |ops| == |answers|
  {
    if ops == [] then before
    else
      var n := |ops| - 1;
      if answers[n].Succeeded? && ops[n].DoReplace? then Saved.Saved(ops[n].connection, ops[n].secret)
      else if answers[n].Succeeded? && ops[n].DoRemove? then NotSaved
      else LastSuccess(before, ops[..n], answers[..n])
  }

  lemma {:induction false} LastSuccessIsSaved(before: Saved, ops: seq<Op>, answers: seq<Answer>, after: Saved)
    requires Explains(before, ops, answers, after) && Stopped !in answers
    ensures after == LastSuccess(before, ops, answers)
    decreases |ops|
  {
    if ops != [] {
      var n := |ops| - 1;
      var middle :| Explains(before, ops[..n], answers[..n], middle) && Effect(ops[n], answers[n], middle, after);
      LastSuccessIsSaved(before, ops[..n], answers[..n], middle);
    }
  }

  class Store {
    const unix: bool
    var file: ConnectionFile
    var keyring: map<Id, Secret>
    var used: set<Id>              // every connection id ever generated; a random id is none of them

    /** A committed record that names a native credential finds it present. */
    ghost predicate Valid()
      reads this
    {
      && keyring.Keys <= used
      && (file.Good? ==> file.record.id in used)
      && (file.Good? && file.record.secret.InNative? ==> file.record.id in keyring)
    }

    /** What a load reports when nothing fails. */
    ghost function Loadable(): Saved
      reads this
      requires Valid()
    {
      match file
      case Absent => NotSaved
      case Unidentified => Broken
      case Good(record) =>
        match record.secret
        case NoSecret => Saved.Saved(record.connection, None)
        case InNative => Saved.Saved(record.connection, Some(keyring[record.id]))
        case InFile(value) => if unix then Saved.Saved(record.connection, Some(value)) else Broken
    }

    // ----- The two stores, failing at will -----

    method ReadFile() returns (r: Reply<Option<Record>>)
      ensures r.Ok? ==>
                if r.value.Some? then file == Good(r.value.value) && (r.value.value.secret.InFile? ==> unix)
                else file.Absent?
      ensures r.Err? ==> r.error.Io? || r.error.Unreadable? || r.error.PlaintextFileUnsupported?
      ensures r.Err? && r.error.PlaintextFileUnsupported? ==> file.Good? && file.record.secret.InFile?
      ensures !r.Crashed?
    {
      if * {
        return Err(Io);
      }
      match file {
        case Absent => r := Ok(None);
        case Unidentified => r := Err(Unreadable);
        case Good(record) =>
          if record.secret.InFile? && !unix {
            r := Err(PlaintextFileUnsupported);
          } else {
            r := Ok(Some(record));
          }
      }
    }

    /** A failed `set` may still have stored the credential. */
    method NativeSet(id: Id, secret: Secret) returns (r: NativeReply)
      requires Valid() && id in used
      modifies this`keyring
      ensures keyring == old(keyring)[id := secret] || (keyring == old(keyring) && !r.NativeOk?)
    {
      r := *;
      var stored: bool := *;
      if r.NativeOk? || stored {
        keyring := keyring[id := secret];
      }
    }

    method NativeGet(id: Id) returns (r: NativeReply, secret: Option<Secret>)
      ensures r.NativeOk? ==> id in keyring && secret == Some(keyring[id])
      ensures r.NoEntry? ==> id !in keyring
    {
      r, secret := Failed, None;
      if id !in keyring {
        r := NoEntry;
      } else {
        r, secret := NativeOk, Some(keyring[id]);
      }
      if * {
        r, secret := Unavailable, None;
      } else if * {
        r, secret := Failed, None;
      }
    }

    /** Deleting a missing credential succeeds; a failed delete may have worked. */
    method NativeDelete(id: Id) returns (ok: bool)
      modifies this`keyring
      ensures keyring == old(keyring) - {id} || (keyring == old(keyring) && !ok)
    {
      ok := *;
      var deleted: bool := *;
      if ok || deleted {
        keyring := keyring - {id};
      }
    }

    /** Prepares a temporary file and renames it: all or nothing. */
    method WriteFile(record: Record) returns (ok: bool)
      modifies this`file
      ensures file == if ok then Good(record) else old(file)
    {
      ok := *;
      if ok {
        file := Good(record);
      }
    }

    method DeleteFile() returns (r: Reply<bool>)
      modifies this`file
      ensures r == Ok(true) ==> !old(file).Absent? && file.Absent?
      ensures r == Ok(false) ==> old(file).Absent? && file.Absent?
      ensures r.Ok? ==> file.Absent?
      ensures r.Err? ==> file == old(file)
      ensures !r.Crashed?
    {
      if * {
        return Err(Io);
      }
      r := Ok(!file.Absent?);
      file := Absent;
    }

    // ----- Operations -----

    /** Reads what is saved; the secret of a committed record is never missing. */
    method Load() returns (r: Reply<Option<(Connection, Option<Secret>)>>)
      requires Valid()
      ensures r.Ok? ==>
                Loadable() == if r.value.None? then NotSaved else Saved.Saved(r.value.value.0, r.value.value.1)
      ensures r.Err? ==> !r.error.SecretMissing?
    {
      var read := ReadFile();
      if !read.Ok? {
        return Err(read.error);
      }
      if read.value.None? {
        return Ok(None);
      }
      var record := read.value.value;
      match record.secret {
        case NoSecret => r := Ok(Some((record.connection, None)));
        case InFile(value) => r := Ok(Some((record.connection, Some(value))));
        case InNative =>
          var reply, secret := NativeGet(record.id);
          match reply {
            case NativeOk => r := Ok(Some((record.connection, secret)));
            case Unavailable => r := Err(NativeStorageUnavailable);
            case NoEntry => r := Err(SecretMissing);
            case Failed => r := Err(NativeFailed);
          }
      }
    }

    method CurrentNativeId() returns (r: Reply<PreviousNative>)
      requires Valid()
      ensures r.Ok? && r.value.Known? ==> file.Good? && file.record.id == r.value.id && file.record.secret.InNative?
      ensures r.Ok? && r.value.NoPrevious? ==> file.Absent? || (file.Good? && !file.record.secret.InNative?)
      ensures !r.Crashed?
    {
      var read := ReadFile();
      match read {
        case Ok(Some(record)) => r := Ok(if record.secret.InNative? then Known(record.id) else NoPrevious);
        case Ok(None) => r := Ok(NoPrevious);
        case Err(error) =>
          match error {
            case PlaintextFileUnsupported => r := Ok(NoPrevious);
            case Unreadable => r := Ok(Unknown);
            case _ =>
              if * {
                r := Ok(Unknown);  // permission denied
              } else {
                r := Err(error);
              }
          }
      }
    }

    /** Retires the previous credential; false means that it is gone. */
    method Retire(previous: PreviousNative) returns (left: bool)
      requires Valid() && (previous.Known? && file.Good? ==> file.record.id != previous.id)
      modifies this`keyring
      ensures Valid() && Loadable() == old(Loadable())
      ensures !left ==> !previous.Unknown? && (previous.Known? ==> previous.id !in keyring)
    {
      match previous {
        case NoPrevious => left := false;
        case Unknown => left := true;
        case Known(id) =>
          var ok := NativeDelete(id);
          left := !ok;
      }
    }

    /** Encodes the record and stores its secret under a fresh id. */
    method Prepare(id: Id, connection: Connection, secret: Option<Secret>, policy: Policy)
      returns (r: Reply<(Record, Backend)>)
      requires Valid() && id in used && id !in keyring && (file.Good? ==> file.record.id != id)
      modifies this`keyring
      ensures Valid() && Loadable() == old(Loadable())
      ensures keyring - {id} == old(keyring)
      ensures r.Ok? ==>
                var (record, backend) := r.value;
                && record.id == id && record.connection == connection
                && (backend.BackendNone? <==> secret.None?)
                && record.secret == (match backend
                                     case BackendNone => NoSecret
                                     case BackendNative => InNative
                                     case BackendFile => if secret.Some? then InFile(secret.value) else NoSecret)
                && (backend.BackendNative? ==> id in keyring && keyring[id] == secret.value)
                && (backend.BackendFile? ==> unix && policy.AllowPlaintextFile?)
    {
      if * {
        return Err(RecordTooLarge);
      }
      if secret.None? {
        return Ok((Record(id, connection, NoSecret), BackendNone));
      }
      if * {
        return Crashed;
      }
      var reply := NativeSet(id, secret.value);
      if * {
        return Crashed;
      }
      match reply {
        case NativeOk => r := Ok((Record(id, connection, InNative), BackendNative));
        case Unavailable =>
          if policy.NativeOnly? {
            return Err(NativeStorageUnavailable);
          }
          if !unix {
            return Err(PlaintextFileUnsupported);
          }
          if * {
            return Err(RecordTooLarge);
          }
          r := Ok((Record(id, connection, InFile(secret.value)), BackendFile));
        case NoEntry => r := Err(SecretMissing);
        case Failed => r := Err(NativeFailed);
      }
    }

    /** Success saves exactly the new connection, an error leaves the saved one
        as it was, and a crash leaves one of the two; a reported retirement is
        real. */
    method Replace(connection: Connection, secret: Option<Secret>, policy: Policy) returns (r: Reply<Replaced>)
      requires Valid()
      modifies this
      ensures Valid()
      ensures r.Ok? ==> Loadable() == Saved.Saved(connection, secret)
      ensures r.Err? ==> Loadable() == old(Loadable())
      ensures r.Crashed? ==> Loadable() == old(Loadable()) || Loadable() == Saved.Saved(connection, secret)
      ensures r.Ok? && !r.value.staleSecretLeft ==>
                !old(file).Unidentified? &&
                (old(file).Good? && old(file).record.secret.InNative? ==> old(file).record.id !in keyring)
      ensures r.Ok? ==> (r.value.backend.BackendFile? ==> policy.AllowPlaintextFile?)
    {
      var previous := CurrentNativeId();
      if !previous.Ok? {
        return Err(previous.error);
      }
      if * {
        return Err(Randomness);
      }
      FreshNat(used);
      var id: Id :| id !in used;
      used := used + {id};
      var prepared := Prepare(id, connection, secret, policy);
      if !prepared.Ok? {
        return if prepared.Err? then Err(prepared.error) else Crashed;
      }
      if * {
        return Crashed;
      }
      var (record, backend) := prepared.value;
      var committed := WriteFile(record);
      if * {
        return Crashed;
      }
      if !committed {
        if backend.BackendNative? {
          var _ := NativeDelete(id);
        }
        return Err(Io);
      }
      var left := Retire(previous.value);
      if * {
        return Crashed;
      }
      r := Ok(Replaced(backend, left));
    }

    /** Success leaves nothing saved, an error changes nothing. */
    method Remove() returns (r: Reply<Removed>)
      requires Valid()
      modifies this
      ensures Valid()
      ensures r.Ok? ==> Loadable() == NotSaved && (r.value.Nothing? <==> old(file).Absent?)
      ensures r.Err? ==> Loadable() == old(Loadable()) && keyring == old(keyring)
      ensures r.Crashed? ==> Loadable() == old(Loadable()) || Loadable() == NotSaved
      ensures r.Ok? && r.value.Existing? && !r.value.staleSecretLeft ==>
                old(file).Good? && (old(file).record.secret.InNative? ==> old(file).record.id !in keyring)
    {
      var previous := CurrentNativeId();
      if !previous.Ok? {
        return Err(previous.error);
      }
      if * {
        return Crashed;
      }
      var removed := DeleteFile();
      if * {
        return Crashed;
      }
      match removed {
        case Err(error) => return Err(error);
        case Crashed => return Crashed;
        case Ok(existed) =>
          if !existed {
            return Ok(Nothing);
          }
      }
      var left := Retire(previous.value);
      if * {
        return Crashed;
      }
      r := Ok(Existing(left));
    }

    /** Any sequence of operations, each of which may fail or crash. */
    method Run(ops: seq<Op>) returns (answers: seq<Answer>)
      requires Valid()
      modifies this
      ensures Valid()
      ensures |answers| == |ops| && Explains(old(Loadable()), ops, answers, Loadable())
    {
      hide Effect;
      answers := [];
      for i := 0 to |ops|
        invariant Valid() && |answers| == i
        invariant Explains(old(Loadable()), ops[..i], answers, Loadable())
      {
        ghost var middle := Loadable();
        var answer := Do(ops[i]);
        ExplainsMore(old(Loadable()), ops[..i], answers, middle, ops[i], answer, Loadable());
        assert ops[..i + 1] == ops[..i] + [ops[i]];
        answers := answers + [answer];
      }
      assert ops[..|ops|] == ops;
    }

    method Do(op: Op) returns (answer: Answer)
      requires Valid()
      modifies this
      ensures Valid() && Effect(op, answer, old(Loadable()), Loadable())
    {
      match op {
        case DoReplace(connection, secret, policy) =>
          var r := Replace(connection, secret, policy);
          answer := if r.Ok? then Succeeded else if r.Err? then Refused else Stopped;
        case DoRemove =>
          var r := Remove();
          answer := if r.Ok? then Succeeded else if r.Err? then Refused else Stopped;
        case DoLoad =>
          var r := Load();
          answer := if r.Ok? then Succeeded else if r.Err? then Refused else Stopped;
      }
    }
  }
}
