/**
 `main_backup.py`: the older single-window version of the application. Its
 `AsistenciaManager` keeps the queue file and posts records, and
 `AsistenciaApp` validates the form, saves locally, sends, and retries the
 pending records.
 */
module MainBackup {
  import opened Wrappers
  import opened Text
  import opened Digits
  import opened TimeFormat
  import opened Store
  import opened Http
  import Dto

  // ================================================ the stored records

  /**
   One entry of `asistencia_local.json` as `AsistenciaManager` writes it. A
   field `None` is a key the entry lacks (a file written by hand or by another
   version); `foto` is also None when no photo path was given.
   */
  datatype Registro = Registro(
    timestamp: Option<string>, observaciones: Option<string>, usuarioJolg: Option<string>,
    foto: Option<string>, enviado: Option<bool>)

  /** `not r.get("enviado", False)`: an absent flag counts as not sent. */
  predicate IsPendiente(r: Registro)
  {
    r.enviado != Some(true)
  }

  /** Every record has a `timestamp` key, as every record `guardar_local` writes does. */
  predicate AllStamped(registros: seq<Registro>)
  {
    forall j :: 0 <= j < |registros| ==> registros[j].timestamp.Some?
  }

  /** No two records share a timestamp. */
  predicate UniqueStamps(registros: seq<Registro>)
  {
    forall j, k :: 0 <= j < k < |registros| && registros[j].timestamp.Some? ==> registros[j].timestamp != registros[k].timestamp
  }

  // ============================================ marcar_como_enviado

  /**
   Where the loop of `marcar_como_enviado(timestamp)` stops: at the first
   record that lacks a timestamp (`registro["timestamp"]` raises `KeyError`)
   or matches; `|registros|` when it runs off the end.
   */
  function FirstStop(registros: seq<Registro>, timestamp: string): (i: nat)
    ensures i <= |registros|
    ensures i < |registros| ==> registros[i].timestamp.None? || registros[i].timestamp == Some(timestamp)
    ensures forall k :: 0 <= k < i ==> registros[k].timestamp.Some? && registros[k].timestamp != Some(timestamp)
  {
    if registros == [] then 0
    else if registros[0].timestamp.None? || registros[0].timestamp == Some(timestamp) then 0
    else 1 + FirstStop(registros[1..], timestamp)
  }

  /**
   The list the loop leaves to be written back, or None when it raised
   `KeyError` first (the exception is swallowed and nothing is written).
   */
  function MarkedEnviado(registros: seq<Registro>, timestamp: string): Option<seq<Registro>>
  {
    var i := FirstStop(registros, timestamp);
    if i == |registros| then Some(registros)
    else if registros[i].timestamp.None? then None
    else Some(registros[i := registros[i].(enviado := Some(true))])
  }

  /** The loop of `marcar_como_enviado`, with the `KeyError` it may raise reported as `raised`. */
  method MarcarPrimero(registros: seq<Registro>, timestamp: string) returns (raised: bool, out: seq<Registro>)
    ensures raised <==> MarkedEnviado(registros, timestamp).None?
    ensures !raised ==> MarkedEnviado(registros, timestamp) == Some(out)
  {
    out := registros;
    raised := false;
    var i := 0;
    while i < |out|
      invariant 0 <= i <= |registros| && out == registros
      invariant forall k :: 0 <= k < i ==> registros[k].timestamp.Some? && registros[k].timestamp != Some(timestamp)
    {
      if out[i].timestamp.None? {
        raised := true;
        return;
      }
      if out[i].timestamp == Some(timestamp) {
        out := out[i := out[i].(enviado := Some(true))];
        return;
      }
      i := i + 1;
    }
  }

  /**
   When the loop completes it changes only the record it stopped at, and in
   it only `enviado`; it raises exactly when a record without a timestamp
   comes before every match.
   */
  lemma MarkedEnviadoFrame(registros: seq<Registro>, timestamp: string)
    ensures MarkedEnviado(registros, timestamp).None? <==>
      exists j :: 0 <= j < |registros| && registros[j].timestamp.None?
        && forall k :: 0 <= k < j ==> registros[k].timestamp != Some(timestamp)
    ensures MarkedEnviado(registros, timestamp).Some? ==>
      var out := MarkedEnviado(registros, timestamp).value;
      && |out| == |registros|
      && forall j :: 0 <= j < |registros| ==>
        out[j] == if registros[j].timestamp == Some(timestamp)
                     && (forall k :: 0 <= k < j ==> registros[k].timestamp != Some(timestamp))
                  then registros[j].(enviado := Some(true)) else registros[j]
  {
    var i := FirstStop(registros, timestamp);
    if MarkedEnviado(registros, timestamp).None? {
      assert registros[i].timestamp.None?;
    } else {
      forall j | 0 <= j < |registros| && registros[j].timestamp.None?
        ensures exists k :: 0 <= k < j && registros[k].timestamp == Some(timestamp)
      {
        assert i < j && registros[i].timestamp == Some(timestamp);
      }
    }
  }

  /** On a file whose every record has a timestamp the loop never raises. */
  lemma StampedNeverRaises(registros: seq<Registro>, timestamp: string)
    requires AllStamped(registros)
    ensures MarkedEnviado(registros, timestamp).Some?
  {
  }

  /** `marcar_como_enviado(timestamp)` on the whole file; `write` is how its rewrite ends. */
  function MarcarEnviadoFile(f: StoreFile<Registro>, timestamp: string, write: WriteOutcome): StoreFile<Registro>
  {
    match f
    case Records(registros) =>
      (match MarkedEnviado(registros, timestamp)
       case Some(out) => AfterWrite(f, out, write)
       case None => f)
    case _ => f
  }

  // ===================================================== the API body

  /** The DTO `enviar_a_api` builds, or the first key whose lookup raised `KeyError`. */
  datatype DtoBuild = Built(dto: map<string, string>) | MissingKey(key: string)

  /**
   `{"observaciones": ..., "usuarioJolg": ..., "timestamp": ...}` copied from
   the record; the keys are looked up in that order, so a failure names the
   first one the record lacks.
   */
  function BuildDto(r: Registro): (b: DtoBuild)
    ensures b.Built? <==> r.observaciones.Some? && r.usuarioJolg.Some? && r.timestamp.Some?
    ensures b.Built? ==>
      && b.dto.Keys == {"observaciones", "usuarioJolg", "timestamp"}
      && b.dto["observaciones"] == r.observaciones.value
      && b.dto["usuarioJolg"] == r.usuarioJolg.value
      && b.dto["timestamp"] == r.timestamp.value
    ensures b.MissingKey? ==>
      || (b.key == "observaciones" && r.observaciones.None?)
      || (b.key == "usuarioJolg" && r.observaciones.Some? && r.usuarioJolg.None?)
      || (b.key == "timestamp" && r.observaciones.Some? && r.usuarioJolg.Some? && r.timestamp.None?)
  {
    if r.observaciones.None? then MissingKey("observaciones")
    else if r.usuarioJolg.None? then MissingKey("usuarioJolg")
    else if r.timestamp.None? then MissingKey("timestamp")
    else Built(map["observaciones" := r.observaciones.value, "usuarioJolg" := r.usuarioJolg.value,
                   "timestamp" := r.timestamp.value])
  }

  /**
   The body `enviar_a_api` posts is the `to_dict()` of `dto.py`'s
   `AsistenciaDTO` for the same fields, whenever the timestamp is non-empty.
   */
  lemma BuildDtoIsApiDict(r: Registro, now: string)
    requires BuildDto(r).Built? && r.timestamp.value != ""
    ensures BuildDto(r).dto
      == Dto.AsistenciaDTO(r.observaciones.value, r.usuarioJolg.value, Some(r.timestamp.value)).ToDict(now)
  {
  }

  /** The body `enviar_a_api` posts for this record, None when it raises before posting. */
  function PostedBody(r: Registro): Option<map<string, string>>
  {
    match BuildDto(r)
    case Built(dto) => Some(dto)
    case MissingKey(_) => None
  }

  /** Whether `enviar_a_api` reports success for this record and reply. */
  predicate Sends(r: Registro, reply: HttpReply)
  {
    BuildDto(r).Built? && reply.Replied?
  }

  /** What `enviar_a_api` returns as its message. */
  function EnvioMessage(r: Registro, reply: HttpReply): string
  {
    match BuildDto(r)
    case MissingKey(key) => "Error inesperado: '" + key + "'"
    case Built(_) => if reply.Replied? then "Enviado exitosamente" else FailureMessage(reply)
  }

  // ================================================= AsistenciaManager

  /** `AsistenciaManager`: the queue file and the client of the API. */
  class AsistenciaManager {
    var file: StoreFile<Registro>

    /** A manager over whatever the file on disk holds. */
    constructor (disk: StoreFile<Registro>)
      ensures file == disk
    {
      file := disk;
    }

    /** The record `guardar_local` writes. */
    static function NewRegistro(timestamp: string, observaciones: string, usuarioJolg: string, foto: Option<string>): Registro
    {
      Registro(Some(timestamp), Some(observaciones), Some(usuarioJolg), foto, Some(false))
    }

    /**
     `guardar_local(...)`: load (a missing or unreadable file counts as
     empty), append, rewrite. A failed rewrite raises: `saved` is then None.
     `timestamp` is the `datetime.now().isoformat()` of the call.
     */
    method GuardarLocal(timestamp: string, observaciones: string, usuarioJolg: string, foto: Option<string>,
                        write: WriteOutcome) returns (saved: Option<Registro>)
      modifies this
      ensures saved == if write.WriteOk? then Some(NewRegistro(timestamp, observaciones, usuarioJolg, foto)) else None
      ensures file == AfterWrite(old(file), old(file.Loaded()) + [NewRegistro(timestamp, observaciones, usuarioJolg, foto)], write)
    {
      var registro := NewRegistro(timestamp, observaciones, usuarioJolg, foto);
      var registros := file.Loaded();
      registros := registros + [registro];
      file := AfterWrite(file, registros, write);
      saved := if write.WriteOk? then Some(registro) else None;
    }

    /** `marcar_como_enviado(timestamp)`. */
    method MarcarComoEnviado(timestamp: string, write: WriteOutcome)
      modifies this
      ensures file == MarcarEnviadoFile(old(file), timestamp, write)
    {
      if !file.Records? {
        return;
      }
      var raised, registros := MarcarPrimero(file.records, timestamp);
      if !raised {
        file := AfterWrite(file, registros, write);
      }
    }

    /** `obtener_pendientes()`: the records not yet sent, in file order; `[]` for a missing or unreadable file. */
    function ObtenerPendientes(): (pendientes: seq<Registro>)
      reads this
      ensures IsSubsequence(pendientes, file.Loaded())
      ensures forall r :: r in pendientes ==> IsPendiente(r)
      ensures forall i :: 0 <= i < |file.Loaded()| && IsPendiente(file.Loaded()[i]) ==> file.Loaded()[i] in pendientes
      ensures forall r :: multiset(pendientes)[r] == if IsPendiente(r) then multiset(file.Loaded())[r] else 0
    {
      FilterIsSubsequence(file.Loaded(), IsPendiente);
      FilterKeepsEveryKept(file.Loaded(), IsPendiente);
      FilterMultiset(file.Loaded(), IsPendiente);
      Filter(file.Loaded(), IsPendiente)
    }

    /**
     `enviar_a_api(registro)`: build the DTO, POST it, and on success mark the
     record's timestamp as sent. `reply` is the POST's outcome and `markWrite`
     how the marking's rewrite ends. `posted` is the body sent, None when the
     DTO could not be built and no request was made.
     */
    method EnviarAApi(registro: Registro, reply: HttpReply, markWrite: WriteOutcome)
      returns (ok: bool, mensaje: string, posted: Option<map<string, string>>)
      modifies this
      ensures posted == PostedBody(registro)
      ensures ok <==> Sends(registro, reply)
      ensures mensaje == EnvioMessage(registro, reply)
      ensures file == if ok then MarcarEnviadoFile(old(file), registro.timestamp.value, markWrite) else old(file)
    {
      var dto := BuildDto(registro);
      if dto.MissingKey? {
        return false, "Error inesperado: '" + dto.key + "'", None;
      }
      posted := Some(dto.dto);
      if reply.Replied? {
        MarcarComoEnviado(registro.timestamp.value, markWrite);
        ok, mensaje := true, "Enviado exitosamente";
      } else {
        ok, mensaje := false, FailureMessage(reply);
      }
    }
  }

  /**
   A file every record of which was written by `guardar_local` and never
   marked is pending as a whole: `obtener_pendientes` returns all of it.
   */
  lemma NeverSentAllPending(registros: seq<Registro>)
    requires forall j :: 0 <= j < |registros| ==> registros[j].enviado != Some(true)
    ensures Filter(registros, IsPendiente) == registros
  {
    FilterAllKept(registros, IsPendiente);
  }

  /** A record `guardar_local` queues joins the end of the pending list. */
  lemma GuardarQueuesPending(registros: seq<Registro>, timestamp: string, observaciones: string,
                             usuarioJolg: string, foto: Option<string>)
    ensures Filter(registros + [AsistenciaManager.NewRegistro(timestamp, observaciones, usuarioJolg, foto)], IsPendiente)
            == Filter(registros, IsPendiente) + [AsistenciaManager.NewRegistro(timestamp, observaciones, usuarioJolg, foto)]
  {
    var r := AsistenciaManager.NewRegistro(timestamp, observaciones, usuarioJolg, foto);
    FilterAppend(registros, [r], IsPendiente);
    assert Filter([r], IsPendiente) == [r] by {
      assert [r][1..] == [];
    }
  }

  /**
   Saving then marking the saved timestamp, with both rewrites written, marks
   the new record and nothing else, so the pending list is what it was before
   the save, provided every earlier record has a different timestamp.
   */
  lemma {:induction false} GuardarThenMarcar(registros: seq<Registro>, registro: Registro)
    requires registro.timestamp.Some?
    requires forall j :: 0 <= j < |registros| ==> registros[j].timestamp.Some? && registros[j].timestamp != registro.timestamp
    ensures MarcarEnviadoFile(Records(registros + [registro]), registro.timestamp.value, WriteOk)
            == Records(registros + [registro.(enviado := Some(true))])
    ensures Filter(registros + [registro.(enviado := Some(true))], IsPendiente) == Filter(registros, IsPendiente)
  {
    var all := registros + [registro];
    var t := registro.timestamp.value;
    assert FirstStop(all, t) == |registros| by {
      assert all[|registros|] == registro;
      assert forall k :: 0 <= k < |registros| ==> all[k] == registros[k];
    }
    assert all[|registros| := registro.(enviado := Some(true))] == registros + [registro.(enviado := Some(true))];
    FilterAppend(registros, [registro.(enviado := Some(true))], IsPendiente);
    assert Filter([registro.(enviado := Some(true))], IsPendiente) == [] by {
      assert [registro.(enviado := Some(true))][1..] == [];
    }
  }

  /** The record at `j` lacks a timestamp and no earlier record carries `timestamp`. */
  predicate UnstampedBefore(registros: seq<Registro>, timestamp: string, j: int)
  {
    && 0 <= j < |registros|
    && registros[j].timestamp.None?
    && forall k :: 0 <= k < j ==> registros[k].timestamp != Some(timestamp)
  }

  /**
   A record without a timestamp ahead of the match makes the marking raise,
   and the swallowed exception leaves the file as it was: the record just
   sent stays pending and is sent again by the next retry.
   */
  lemma UnstampedRecordBlocksMarking(registros: seq<Registro>, registro: Registro, write: WriteOutcome)
    requires registro.timestamp.Some? && IsPendiente(registro)
    requires exists j :: UnstampedBefore(registros, registro.timestamp.value, j)
    ensures MarcarEnviadoFile(Records(registros + [registro]), registro.timestamp.value, write)
            == Records(registros + [registro])
    ensures registro in Filter(registros + [registro], IsPendiente)
  {
    var all := registros + [registro];
    var t := registro.timestamp.value;
    var j :| UnstampedBefore(registros, t, j);
    assert all[j] == registros[j];
    var i := FirstStop(all, t);
    assert i <= j;
    assert all[i] == registros[i];
    assert MarkedEnviado(all, t).None?;
    FilterKeepsEveryKept(all, IsPendiente);
    assert all[|registros|] == registro;
  }

  // ============================================== retrying the queue

  /** How many of the first `n` pending records `enviar_pendientes` sends. */
  function CountSent(pendientes: seq<Registro>, reply: nat -> HttpReply, n: nat): (count: nat)
    requires n <= |pendientes|
    ensures count <= n
  {
    if n == 0 then 0
    else CountSent(pendientes, reply, n - 1) + if Sends(pendientes[n - 1], reply(n - 1)) then 1 else 0
  }

  /**
   The file after the first `n` calls of `enviar_a_api` in
   `enviar_pendientes`: call `i` gets `reply(i)`, and its marking, when it
   sends, ends as `markWrite(i)`.
   */
  function AfterSends(f: StoreFile<Registro>, pendientes: seq<Registro>, reply: nat -> HttpReply,
                      markWrite: nat -> WriteOutcome, n: nat): StoreFile<Registro>
    requires n <= |pendientes|
  {
    if n == 0 then f
    else
      var g := AfterSends(f, pendientes, reply, markWrite, n - 1);
      if Sends(pendientes[n - 1], reply(n - 1))
      then MarcarEnviadoFile(g, pendientes[n - 1].timestamp.value, markWrite(n - 1))
      else g
  }

  /** The timestamps of the records among the first `n` that were sent. */
  function SentStamps(pendientes: seq<Registro>, reply: nat -> HttpReply, n: nat): set<string>
    requires n <= |pendientes|
  {
    if n == 0 then {}
    else SentStamps(pendientes, reply, n - 1)
         + if Sends(pendientes[n - 1], reply(n - 1)) then {pendientes[n - 1].timestamp.value} else {}
  }

  /** A record whose timestamp is in `stamps`, marked as sent. */
  function MarkOne(r: Registro, stamps: set<string>): Registro
  {
    if r.timestamp.Some? && r.timestamp.value in stamps then r.(enviado := Some(true)) else r
  }

  /** Every record whose timestamp is in `stamps`, marked as sent. */
  function MarkAll(registros: seq<Registro>, stamps: set<string>): (out: seq<Registro>)
    ensures |out| == |registros| && forall j :: 0 <= j < |out| ==> out[j] == MarkOne(registros[j], stamps)
  {
    seq(|registros|, j requires 0 <= j < |registros| => MarkOne(registros[j], stamps))
  }

  /** Marking one more timestamp of a well-stamped file adds it to the marked set. */
  lemma MarkStep(registros: seq<Registro>, stamps: set<string>, j0: nat, timestamp: string)
    requires AllStamped(registros) && UniqueStamps(registros)
    requires j0 < |registros| && registros[j0].timestamp == Some(timestamp)
    ensures MarkedEnviado(MarkAll(registros, stamps), timestamp) == Some(MarkAll(registros, stamps + {timestamp}))
  {
    var m := MarkAll(registros, stamps);
    var i := FirstStop(m, timestamp);
    assert m[j0].timestamp == Some(timestamp);
    assert i == j0;
    var out := m[j0 := m[j0].(enviado := Some(true))];
    var want := MarkAll(registros, stamps + {timestamp});
    forall j | 0 <= j < |registros| ensures out[j] == want[j] {
      if j != j0 {
        assert registros[j].timestamp != Some(timestamp) by {
          if j < j0 {
            assert registros[j].timestamp != registros[j0].timestamp;
          } else {
            assert registros[j0].timestamp != registros[j].timestamp;
          }
        }
      }
    }
    assert out == want;
  }

  /** With every marking written, the retry marks exactly the timestamps it sent. */
  lemma {:induction false} AfterSendsMarksSent(registros: seq<Registro>, pendientes: seq<Registro>,
                                               reply: nat -> HttpReply, markWrite: nat -> WriteOutcome, n: nat)
    requires AllStamped(registros) && UniqueStamps(registros)
    requires forall r :: r in pendientes ==> r in registros
    requires n <= |pendientes| && forall i :: 0 <= i < n ==> markWrite(i) == WriteOk
    ensures AfterSends(Records(registros), pendientes, reply, markWrite, n)
            == Records(MarkAll(registros, SentStamps(pendientes, reply, n)))
  {
    if n == 0 {
      assert MarkAll(registros, {}) == registros;
    } else {
      AfterSendsMarksSent(registros, pendientes, reply, markWrite, n - 1);
      var r := pendientes[n - 1];
      if Sends(r, reply(n - 1)) {
        assert r in registros;
        var j0 :| 0 <= j0 < |registros| && registros[j0] == r;
        MarkStep(registros, SentStamps(pendientes, reply, n - 1), j0, r.timestamp.value);
      }
    }
  }

  /** Filtering keeps the timestamps unique. */
  lemma {:induction false} FilterKeepsUniqueStamps(registros: seq<Registro>, keep: Registro -> bool)
    requires UniqueStamps(registros)
    ensures UniqueStamps(Filter(registros, keep))
  {
    if registros != [] {
      var tail := registros[1..];
      assert UniqueStamps(tail) by {
        forall j, k | 0 <= j < k < |tail| && tail[j].timestamp.Some?
          ensures tail[j].timestamp != tail[k].timestamp
        {
          assert tail[j] == registros[j + 1] && tail[k] == registros[k + 1];
        }
      }
      FilterKeepsUniqueStamps(tail, keep);
      if keep(registros[0]) {
        var f := Filter(registros, keep);
        assert f == [registros[0]] + Filter(tail, keep);
        forall j, k | 0 <= j < k < |f| && f[j].timestamp.Some? ensures f[j].timestamp != f[k].timestamp {
          if j == 0 {
            assert f[k] in Filter(tail, keep) by {
              assert f[k] == Filter(tail, keep)[k - 1];
            }
            var k' :| 0 <= k' < |tail| && tail[k'] == f[k];
            assert tail[k'] == registros[k' + 1];
          } else {
            assert f[j] == Filter(tail, keep)[j - 1] && f[k] == Filter(tail, keep)[k - 1];
          }
        }
      }
    }
  }

  /** In a list with unique timestamps, the element carrying a given timestamp is found at one index only. */
  lemma SameStampSameIndex(registros: seq<Registro>, j: nat, k: nat)
    requires UniqueStamps(registros) && j < |registros| && k < |registros|
    requires registros[j].timestamp.Some? && registros[j].timestamp == registros[k].timestamp
    ensures j == k
  {
  }

  /** A pending record's timestamp is among the sent ones exactly when its own send succeeded. */
  lemma {:induction false} SentStampsOfPending(pendientes: seq<Registro>, reply: nat -> HttpReply, n: nat, i: nat)
    requires AllStamped(pendientes) && UniqueStamps(pendientes)
    requires n <= |pendientes| && i < |pendientes|
    ensures pendientes[i].timestamp.value in SentStamps(pendientes, reply, n) <==> i < n && Sends(pendientes[i], reply(i))
  {
    if n > 0 {
      SentStampsOfPending(pendientes, reply, n - 1, i);
      if Sends(pendientes[n - 1], reply(n - 1)) && pendientes[i].timestamp.value == pendientes[n - 1].timestamp.value {
        SameStampSameIndex(pendientes, i, n - 1);
      }
    }
  }

  /** A pending record is still pending after the marking exactly when its timestamp was not marked. */
  lemma PendingAfterMarking(registros: seq<Registro>, stamps: set<string>, j: nat)
    requires AllStamped(registros) && UniqueStamps(registros)
    requires j < |registros| && IsPendiente(registros[j])
    ensures registros[j] in Filter(MarkAll(registros, stamps), IsPendiente) <==> registros[j].timestamp.value !in stamps
  {
    var m := MarkAll(registros, stamps);
    FilterKeepsEveryKept(m, IsPendiente);
    if registros[j] in Filter(m, IsPendiente) {
      var k :| 0 <= k < |m| && m[k] == registros[j];
      SameStampSameIndex(registros, j, k);
    }
  }

  /** Marking makes nothing pending that was not pending before. */
  lemma MarkingAddsNoPending(registros: seq<Registro>, stamps: set<string>, r: Registro)
    requires r in Filter(MarkAll(registros, stamps), IsPendiente)
    ensures r in Filter(registros, IsPendiente)
  {
    var m := MarkAll(registros, stamps);
    var k :| 0 <= k < |m| && m[k] == r;
    FilterKeepsEveryKept(registros, IsPendiente);
    assert registros[k] == r;
  }

  /** The pending records of a well-stamped file carry unique timestamps. */
  lemma PendingWellStamped(registros: seq<Registro>)
    requires AllStamped(registros) && UniqueStamps(registros)
    ensures AllStamped(Filter(registros, IsPendiente)) && UniqueStamps(Filter(registros, IsPendiente))
  {
    var pendientes := Filter(registros, IsPendiente);
    FilterKeepsUniqueStamps(registros, IsPendiente);
    forall j | 0 <= j < |pendientes| ensures pendientes[j].timestamp.Some? {
      assert pendientes[j] in registros;
    }
  }

  /**
   The retry delivers what it promises: when the file is a list of records
   with unique timestamps and every marking is written, the records pending
   afterwards are exactly the pending ones whose send failed; nothing else
   becomes pending.
   */
  lemma RetryLeavesOnlyFailedPending(registros: seq<Registro>, reply: nat -> HttpReply, markWrite: nat -> WriteOutcome)
    requires AllStamped(registros) && UniqueStamps(registros)
    requires forall i :: markWrite(i) == WriteOk
    ensures var pendientes := Filter(registros, IsPendiente);
      var after := Filter(AfterSends(Records(registros), pendientes, reply, markWrite, |pendientes|).Loaded(), IsPendiente);
      && (forall i :: 0 <= i < |pendientes| ==> (pendientes[i] in after <==> !Sends(pendientes[i], reply(i))))
      && (forall r :: r in after ==> r in pendientes)
  {
    var pendientes := Filter(registros, IsPendiente);
    var stamps := SentStamps(pendientes, reply, |pendientes|);
    AfterSendsMarksSent(registros, pendientes, reply, markWrite, |pendientes|);
    var after := Filter(MarkAll(registros, stamps), IsPendiente);
    PendingWellStamped(registros);
    forall i | 0 <= i < |pendientes| ensures pendientes[i] in after <==> !Sends(pendientes[i], reply(i)) {
      SentStampsOfPending(pendientes, reply, |pendientes|, i);
      assert pendientes[i] in registros;
      var j :| 0 <= j < |registros| && registros[j] == pendientes[i];
      PendingAfterMarking(registros, stamps, j);
    }
    forall r | r in after ensures r in pendientes {
      MarkingAddsNoPending(registros, stamps, r);
    }
  }

  // ===================================================== AsistenciaApp

  /** A message box shown to the operator: its kind, title and text. */
  datatype Notice = Information(title: string, text: string) | Warning(title: string, text: string)
                  | Critical(title: string, text: string)

  /** `os.path.join("fotos", f"foto_{usuario}_{stamp}.jpg")` with the POSIX separator. */
  function FotoPath(usuario: string, clock: DateTime): string
  {
    "fotos/foto_" + usuario + "_" + CompactStamp(clock) + ".jpg"
  }

  /** The pieces of a photo path can be cut back out of it. */
  lemma PhotoNameSlices(usuario: string, stamp: string)
    requires |stamp| == 15
    ensures var p := "fotos/foto_" + usuario + "_" + stamp + ".jpg";
      && |p| == |usuario| + 31
      && p[..11] == "fotos/foto_"
      && p[11..|p| - 20] == usuario
      && p[|p| - 20] == '_'
      && p[|p| - 19..|p| - 4] == stamp
      && p[|p| - 4..] == ".jpg"
  {
    var p := "fotos/foto_" + usuario + "_" + stamp + ".jpg";
    var head, tail := "fotos/foto_" + usuario, "_" + stamp + ".jpg";
    assert p == head + tail;
    assert p[..11] == head[..11] && p[11..|p| - 20] == head[11..];
    assert p[|p| - 20..] == tail;
    assert tail[1..16] == stamp;
  }

  /** The photo's path names the operator and the second it was taken, and both can be read back. */
  lemma FotoPathParts(usuario: string, clock: DateTime)
    ensures var p := FotoPath(usuario, clock);
      && |p| == |usuario| + 31
      && p[..11] == "fotos/foto_"
      && p[11..|p| - 20] == usuario
      && p[|p| - 20] == '_'
      && ParseCompactStamp(p[|p| - 19..|p| - 4]) == Some(clock)
      && p[|p| - 4..] == ".jpg"
  {
    CompactStampRoundTrip(clock);
    PhotoNameSlices(usuario, CompactStamp(clock));
  }

  /** Two photos share a path only when taken by the same operator in the same second. */
  lemma FotoPathInjective(u1: string, c1: DateTime, u2: string, c2: DateTime)
    requires FotoPath(u1, c1) == FotoPath(u2, c2)
    ensures u1 == u2 && c1 == c2
  {
    FotoPathParts(u1, c1);
    FotoPathParts(u2, c2);
  }

  /** `f"Se enviaron {enviados} de {len(pendientes)} registros"`. */
  function SentReport(enviados: nat, total: nat): string
  {
    "Se enviaron " + NatToString(enviados) + " de " + NatToString(total) + " registros"
  }

  /** The message box at the end of `enviar_pendientes`, when `total` records were pending. */
  function RetryNotice(enviados: nat, total: nat): Notice
  {
    if total == 0 then Information("Info", "No hay registros pendientes para enviar")
    else if enviados > 0
    then Information("Éxito", SentReport(enviados, total))
    else Warning("Error", "No se pudo enviar ningún registro. Verifique la conexión.")
  }

  /** `AsistenciaApp`: the form's two actions over its `AsistenciaManager`. */
  class AsistenciaApp {
    const manager: AsistenciaManager

    /** An application whose manager works on `disk`. */
    constructor (disk: StoreFile<Registro>)
      ensures fresh(manager) && manager.file == disk
    {
      manager := new AsistenciaManager(disk);
    }

    /**
     `registrar_asistencia()`. The form's texts, whether a camera frame is
     available, the clock for the photo's name, the record's ISO timestamp,
     and how the save, the POST and the marking end are inputs. `saved` is
     the record queued and `posted` the body sent, when those happen.
     */
    method RegistrarAsistencia(usuarioText: string, observacionesText: string, hasFrame: bool,
                               photoClock: DateTime, recordTimestamp: string,
                               saveWrite: WriteOutcome, reply: HttpReply, markWrite: WriteOutcome)
      returns (notice: Notice, saved: Option<Registro>, posted: Option<map<string, string>>)
      modifies manager
      ensures var usuario := StripSpace(usuarioText);
        var observaciones := StripSpace(observacionesText);
        var registro := AsistenciaManager.NewRegistro(recordTimestamp, observaciones, usuario, Some(FotoPath(usuario, photoClock)));
        var queued := old(manager.file.Loaded()) + [registro];
        if usuario == [] then
          notice == Warning("Error", "Por favor ingrese el usuario JOLG")
          && saved == None && posted == None && manager.file == old(manager.file)
        else if !hasFrame then
          notice == Warning("Error", "No hay imagen de cámara disponible")
          && saved == None && posted == None && manager.file == old(manager.file)
        else if !saveWrite.WriteOk? then
          notice == Critical("Error", "Error al registrar asistencia: " + saveWrite.reason)
          && saved == None && posted == None && manager.file == AfterWrite(old(manager.file), queued, saveWrite)
        else
          && saved == Some(registro)
          && posted == Some(map["observaciones" := observaciones, "usuarioJolg" := usuario, "timestamp" := recordTimestamp])
          && manager.file == (if reply.Replied? then MarcarEnviadoFile(Records(queued), recordTimestamp, markWrite)
                              else Records(queued))
          && notice == if reply.Replied?
                       then Information("Éxito", "Asistencia registrada correctamente para " + usuario)
                       else Warning("Guardado Local", "Asistencia guardada localmente. Error de conexión: " + FailureMessage(reply))
    {
      var usuario := StripSpace(usuarioText);
      var observaciones := StripSpace(observacionesText);
      saved, posted := None, None;
      if usuario == [] {
        notice := Warning("Error", "Por favor ingrese el usuario JOLG");
        return;
      }
      if !hasFrame {
        notice := Warning("Error", "No hay imagen de cámara disponible");
        return;
      }
      var fotoPath := FotoPath(usuario, photoClock);
      saved := manager.GuardarLocal(recordTimestamp, observaciones, usuario, Some(fotoPath), saveWrite);
      if saved.None? {
        notice := Critical("Error", "Error al registrar asistencia: " + saveWrite.reason);
        return;
      }
      var enviado, mensaje;
      enviado, mensaje, posted := manager.EnviarAApi(saved.value, reply, markWrite);
      if enviado {
        notice := Information("Éxito", "Asistencia registrada correctamente para " + usuario);
      } else {
        notice := Warning("Guardado Local", "Asistencia guardada localmente. Error de conexión: " + mensaje);
      }
    }

    /**
     `enviar_pendientes()`: send every pending record once, in file order,
     and report how many went through. Call `i` gets `reply(i)`, and its
     marking ends as `markWrite(i)`. `posted[i]` is the body of the `i`-th
     call, None when its DTO could not be built and nothing was sent.
     */
    method EnviarPendientes(reply: nat -> HttpReply, markWrite: nat -> WriteOutcome)
      returns (notice: Notice, enviados: nat, posted: seq<Option<map<string, string>>>)
      modifies manager
      ensures var pendientes := old(manager.ObtenerPendientes());
        && |posted| == |pendientes|
        && (forall i :: 0 <= i < |pendientes| ==> posted[i] == PostedBody(pendientes[i]))
        && enviados == CountSent(pendientes, reply, |pendientes|)
        && enviados <= |pendientes|
        && manager.file == AfterSends(old(manager.file), pendientes, reply, markWrite, |pendientes|)
        && notice == RetryNotice(enviados, |pendientes|)
    {
      var pendientes := manager.ObtenerPendientes();
      if pendientes == [] {
        notice, enviados, posted := Information("Info", "No hay registros pendientes para enviar"), 0, [];
        return;
      }
      enviados, posted := SendEach(pendientes, reply, markWrite);
      if enviados > 0 {
        notice := Information("Éxito", SentReport(enviados, |pendientes|));
      } else {
        notice := Warning("Error", "No se pudo enviar ningún registro. Verifique la conexión.");
      }
    }

    /** The loop of `enviar_pendientes`: one `enviar_a_api` per record, counting the successes. */
    method SendEach(pendientes: seq<Registro>, reply: nat -> HttpReply, markWrite: nat -> WriteOutcome)
      returns (enviados: nat, posted: seq<Option<map<string, string>>>)
      modifies manager
      ensures |posted| == |pendientes|
      ensures forall i :: 0 <= i < |pendientes| ==> posted[i] == PostedBody(pendientes[i])
      ensures enviados == CountSent(pendientes, reply, |pendientes|)
      ensures manager.file == AfterSends(old(manager.file), pendientes, reply, markWrite, |pendientes|)
    {
      enviados, posted := 0, [];
      var i := 0;
      while i < |pendientes|
        invariant 0 <= i <= |pendientes|
        invariant |posted| == i
        invariant forall j :: 0 <= j < i ==> posted[j] == PostedBody(pendientes[j])
        invariant enviados == CountSent(pendientes, reply, i)
        invariant manager.file == AfterSends(old(manager.file), pendientes, reply, markWrite, i)
      {
        var enviado, _, body := manager.EnviarAApi(pendientes[i], reply(i), markWrite(i));
        posted := posted + [body];
        if enviado {
          enviados := enviados + 1;
        }
        i := i + 1;
      }
    }
  }
}
