/**
 `api_module.py`: the HTTP client's payload rules (`APIClient`), the
 background submission (`AsistenciaWorker.run`) and the local pending queue
 (`LocalStorage`).
 */
module ApiModule {
  import opened Wrappers
  import opened Text
  import opened TimeFormat
  import opened Store
  import opened Http

  // =============================================== APIClient.upload_file

  /** The reference `upload_file` reports when an accepted reply has an empty body. */
  const DefaultUploadReference := "files/uploaded"

  const Quote: set<char> := {'"'}

  /**
   The stored file's reference taken from an accepted upload reply:
   `text.strip('"')`, or the default when the body is empty.
   */
  function UploadReference(text: string): (reference: string)
    ensures text == "" ==> reference == DefaultUploadReference
    ensures text != "" ==> |reference| <= |text|
    ensures reference == [] || (reference[0] != '"' && reference[|reference| - 1] != '"')
  {
    if text != "" then Strip(text, Quote) else DefaultUploadReference
  }

  /** A non-empty body loses only quote characters, and only at its ends. */
  lemma UploadReferenceSplitsBody(text: string) returns (p: string, q: string)
    requires text != ""
    ensures text == p + UploadReference(text) + q
    ensures AllIn(p, Quote) && AllIn(q, Quote)
  {
    p, q := StripSplits(text, Quote);
  }

  /** A server that answers with a JSON string literal `"x"` yields `x` (when `x` is not itself quoted at its ends). */
  lemma UploadReferenceOfQuotedPath(path: string)
    requires path == [] || (path[0] != '"' && path[|path| - 1] != '"')
    ensures UploadReference("\"" + path + "\"") == path
  {
    var text := "\"" + path + "\"";
    assert AllIn("\"", Quote);
    StripUnique(text, Quote, "\"", path, "\"");
  }

  /** A body made only of quote characters yields the empty reference, not the default. */
  lemma UploadReferenceOfQuotesOnly(text: string)
    requires text != "" && AllIn(text, Quote)
    ensures UploadReference(text) == ""
  {
    assert text == text + [] + [] && AllIn([], Quote);
    StripUnique(text, Quote, text, [], []);
  }

  /** What `upload_file` returns, and whether it sent the PUT request. */
  datatype Upload = Upload(requested: bool, ok: bool, result: string)

  /**
   `upload_file(path)`: a missing file fails without a request; otherwise the
   PUT's outcome decides.
   */
  function UploadFile(fileExists: bool, reply: HttpReply): (u: Upload)
    ensures u.requested == fileExists
    ensures u.ok <==> fileExists && reply.Replied?
    ensures !fileExists ==> u.result == "Archivo no encontrado"
    ensures fileExists && !reply.Replied? ==> u.result == FailureMessage(reply)
    ensures u.ok ==> u.result == UploadReference(reply.body)
  {
    if !fileExists then Upload(false, false, "Archivo no encontrado")
    else match reply
      case Replied(body) => Upload(true, true, UploadReference(body))
      case _ => Upload(true, false, FailureMessage(reply))
  }

  // ======================================= APIClient.register_asistencia

  /** The `personal_id` argument: a station code, or the integer `main.py` passes. */
  datatype PersonalId = Code(code: string) | Number(n: int)

  /** `personal_id_map`. */
  const StationNumbers: map<PersonalId, int> := map[Code("TIENDA1") := 1, Code("TIENDA2") := 2, Code("TIENDA3") := 3]

  /** `personal_id_map.get(personal_id, 1)`. */
  function StationNumber(id: PersonalId): (n: int)
    ensures 1 <= n <= 3
    ensures n == 2 <==> id == Code("TIENDA2")
    ensures n == 3 <==> id == Code("TIENDA3")
  {
    if id in StationNumbers then StationNumbers[id] else 1
  }

  /** Any value that is not a known code, integers included, is silently sent as station 1. */
  lemma UnknownStationIsStationOne(id: PersonalId)
    requires id !in StationNumbers
    ensures StationNumber(id) == StationNumber(Code("TIENDA1")) == 1
  {
  }

  /** `observaciones if observaciones else ""`. */
  function SentObservaciones(observaciones: Option<string>): (s: string)
    ensures s == "" <==> observaciones == None || observaciones == Some("")
    ensures s != "" ==> observaciones == Some(s)
  {
    match observaciones
    case Some(o) => if o != "" then o else ""
    case None => ""
  }

  /** The JSON body of the POST to the attendance endpoint. */
  datatype AsistenciaPayload = AsistenciaPayload(
    personalID: int, observaciones: string, fotoRuta: string, fechaHoraRegistro: string)

  /** What `register_asistencia` posts and what it returns. */
  datatype Registration = Registration(payload: AsistenciaPayload, ok: bool, result: string)

  /**
   Whether `register_asistencia` succeeds: the POST was accepted and, when its
   body is not empty, `response.json()` decoded it. `decodeError` is how that
   decoding ends: None when the body is JSON, `Some(detail)` when it raises
   `requests.exceptions.JSONDecodeError` with `str()` equal to `detail`.
   */
  predicate Accepted(reply: HttpReply, decodeError: Option<string>)
  {
    reply.Replied? && (reply.body == "" || decodeError.None?)
  }

  /**
   The message `register_asistencia` returns when it fails. A body that is not
   JSON raises a `RequestException` subclass, reported as a connection error.
   */
  function RejectionMessage(reply: HttpReply, decodeError: Option<string>): (m: string)
    requires !Accepted(reply, decodeError)
    ensures !reply.Replied? ==> m == FailureMessage(reply)
    ensures reply.Replied? ==> m == "Error de conexión: " + decodeError.value
  {
    if reply.Replied? then "Error de conexión: " + decodeError.value else FailureMessage(reply)
  }

  /**
   `register_asistencia(personal_id, observaciones, foto_ruta, fecha_hora)`:
   `now` is the local clock reading used when `fecha_hora` is None, `reply`
   the POST's outcome and `decodeError` how `response.json()` ends.
   */
  function RegisterAsistencia(personalId: PersonalId, observaciones: Option<string>, fotoRuta: string,
                              fechaHora: Option<string>, now: DateTime, reply: HttpReply,
                              decodeError: Option<string>): (r: Registration)
    ensures r.payload.personalID == StationNumber(personalId)
    ensures r.payload.observaciones == SentObservaciones(observaciones)
    ensures r.payload.fotoRuta == fotoRuta
    ensures fechaHora.Some? ==> r.payload.fechaHoraRegistro == fechaHora.value
    ensures fechaHora.None? ==> ParseFechaHora(r.payload.fechaHoraRegistro) == Some(now)
    ensures r.ok <==> reply.Replied? && (reply.body == "" || decodeError.None?)
    ensures !reply.Replied? ==> r.result == FailureMessage(reply)
    ensures reply.Replied? && reply.body != "" && decodeError.Some? ==> r.result == "Error de conexión: " + decodeError.value
    ensures r.ok ==> r.result == if reply.body == "" then "Asistencia registrada" else reply.body
  {
    FechaHoraRoundTrip(now);
    var fecha := if fechaHora.Some? then fechaHora.value else FechaHora(now);
    var payload := AsistenciaPayload(StationNumber(personalId), SentObservaciones(observaciones), fotoRuta, fecha);
    if Accepted(reply, decodeError) then
      Registration(payload, true, if reply.body == "" then "Asistencia registrada" else reply.body)
    else Registration(payload, false, RejectionMessage(reply, decodeError))
  }

  // =============================================== AsistenciaWorker.run

  /** What the worker does that can be observed: signals emitted and requests sent, in order. */
  datatype WorkerEvent =
    | Progress(message: string)
    | PutFile(path: string)
    | PostAsistencia(payload: AsistenciaPayload)
    | Finished(success: bool, message: string)

  /** The worker's arguments. */
  datatype AsistenciaWorker = AsistenciaWorker(personalId: PersonalId, observaciones: Option<string>, fotoPath: string)
  {
    /**
     The events of `run()` once the upload and, when it succeeds, the
     registration have returned `upload` and `registration`.
     */
    function Events(upload: Upload, registration: Registration): (events: seq<WorkerEvent>)
      ensures |events| >= 2 && events[0] == Progress("Subiendo foto...")
      ensures events[|events| - 1].Finished?
      ensures events[|events| - 1].success <==> upload.ok && registration.ok
      ensures !upload.ok ==> events[|events| - 1] == Finished(false, "Error subiendo foto: " + upload.result)
      ensures upload.ok ==>
        events[|events| - 1] == if registration.ok then Finished(true, "Asistencia registrada exitosamente")
                                else Finished(false, "Error registrando asistencia: " + registration.result)
      ensures forall k :: 0 <= k < |events| - 1 ==> !events[k].Finished?
    {
      if !upload.ok then
        var failed := Finished(false, "Error subiendo foto: " + upload.result);
        if upload.requested then [Progress("Subiendo foto..."), PutFile(fotoPath), failed]
        else [Progress("Subiendo foto..."), failed]
      else
        var finished := if registration.ok then Finished(true, "Asistencia registrada exitosamente")
                        else Finished(false, "Error registrando asistencia: " + registration.result);
        [Progress("Subiendo foto..."), PutFile(fotoPath), Progress("Foto subida exitosamente..."),
         Progress("Registrando asistencia..."), PostAsistencia(registration.payload), finished]
    }

    /**
     `run()`: upload the photo, then register the attendance with the
     reference the upload returned. `fotoExists` stands for
     `os.path.exists(foto_path)`, the replies for the two HTTP calls, `now`
     for the clock read when the payload is built and `decodeError` for how
     `response.json()` ends on the registration's reply.
     */
    function Run(fotoExists: bool, uploadReply: HttpReply, now: DateTime, registerReply: HttpReply,
                 decodeError: Option<string>): (events: seq<WorkerEvent>)
      ensures |events| >= 2 && events[0] == Progress("Subiendo foto...")
      ensures events[|events| - 1].Finished?
      ensures events[|events| - 1].success <==> UploadFile(fotoExists, uploadReply).ok && Accepted(registerReply, decodeError)
      ensures !UploadFile(fotoExists, uploadReply).ok ==>
        events[|events| - 1] == Finished(false, "Error subiendo foto: " + UploadFile(fotoExists, uploadReply).result)
      ensures UploadFile(fotoExists, uploadReply).ok ==>
        events[|events| - 1] == if Accepted(registerReply, decodeError) then Finished(true, "Asistencia registrada exitosamente")
                                else Finished(false, "Error registrando asistencia: " + RejectionMessage(registerReply, decodeError))
    {
      var upload := UploadFile(fotoExists, uploadReply);
      Events(upload, RegisterAsistencia(personalId, observaciones, upload.result, None, now, registerReply, decodeError))
    }

    /** `finished` is emitted exactly once, as the last event. */
    lemma RunFinishesOnce(fotoExists: bool, uploadReply: HttpReply, now: DateTime, registerReply: HttpReply, decodeError: Option<string>)
      ensures var events := Run(fotoExists, uploadReply, now, registerReply, decodeError);
        forall k :: 0 <= k < |events| - 1 ==> !events[k].Finished?
    {
      var upload := UploadFile(fotoExists, uploadReply);
      var registration := RegisterAsistencia(personalId, observaciones, upload.result, None, now, registerReply, decodeError);
      assert Run(fotoExists, uploadReply, now, registerReply, decodeError) == Events(upload, registration);
    }

    /** The PUT is sent exactly when the photo file exists. */
    lemma RunUploadsOnlyExistingPhoto(fotoExists: bool, uploadReply: HttpReply, now: DateTime, registerReply: HttpReply, decodeError: Option<string>)
      ensures PutFile(fotoPath) in Run(fotoExists, uploadReply, now, registerReply, decodeError) <==> fotoExists
    {
      var upload := UploadFile(fotoExists, uploadReply);
      var registration := RegisterAsistencia(personalId, observaciones, upload.result, None, now, registerReply, decodeError);
      assert Run(fotoExists, uploadReply, now, registerReply, decodeError) == Events(upload, registration);
    }

    /**
     A registration is posted only after the PUT, only when the upload
     succeeded, and with the reference the upload returned as `fotoRuta`.
     */
    lemma RunRegistersUploadResult(fotoExists: bool, uploadReply: HttpReply, now: DateTime, registerReply: HttpReply, decodeError: Option<string>, k: int)
      requires 0 <= k < |Run(fotoExists, uploadReply, now, registerReply, decodeError)|
      requires Run(fotoExists, uploadReply, now, registerReply, decodeError)[k].PostAsistencia?
      ensures var events := Run(fotoExists, uploadReply, now, registerReply, decodeError);
        var upload := UploadFile(fotoExists, uploadReply);
        && upload.ok
        && events[k].payload == RegisterAsistencia(personalId, observaciones, upload.result, None, now, registerReply, decodeError).payload
        && events[k].payload.fotoRuta == upload.result
        && PutFile(fotoPath) in events[..k]
    {
      var upload := UploadFile(fotoExists, uploadReply);
      var registration := RegisterAsistencia(personalId, observaciones, upload.result, None, now, registerReply, decodeError);
      assert Run(fotoExists, uploadReply, now, registerReply, decodeError) == Events(upload, registration);
      EventsPostAfterPut(upload, registration, k);
    }

    /** In the events, a registration can only be the fifth, after the PUT, once the upload succeeded. */
    lemma EventsPostAfterPut(upload: Upload, registration: Registration, k: int)
      requires 0 <= k < |Events(upload, registration)| && Events(upload, registration)[k].PostAsistencia?
      ensures upload.ok && k == 4
      ensures Events(upload, registration)[k].payload == registration.payload
      ensures PutFile(fotoPath) in Events(upload, registration)[..k]
    {
      assert upload.ok;
      assert Events(upload, registration)[..k][1] == PutFile(fotoPath);
    }

    /** A successful upload is always followed by a registration attempt. */
    lemma RunRegistersAfterUpload(fotoExists: bool, uploadReply: HttpReply, now: DateTime, registerReply: HttpReply, decodeError: Option<string>)
      requires UploadFile(fotoExists, uploadReply).ok
      ensures PostAsistencia(RegisterAsistencia(personalId, observaciones, UploadFile(fotoExists, uploadReply).result,
                                                None, now, registerReply, decodeError).payload)
        in Run(fotoExists, uploadReply, now, registerReply, decodeError)
    {
      var upload := UploadFile(fotoExists, uploadReply);
      var registration := RegisterAsistencia(personalId, observaciones, upload.result, None, now, registerReply, decodeError);
      assert Run(fotoExists, uploadReply, now, registerReply, decodeError) == Events(upload, registration);
      assert Events(upload, registration)[4] == PostAsistencia(registration.payload);
    }
  }

  // ======================================================= LocalStorage

  /**
   One entry of `asistencia_local.json` as `LocalStorage` writes it. A field
   of type `Option` is a key a hand-edited or older file may lack.
   */
  datatype StoredRecord = StoredRecord(
    timestamp: Option<string>, personalID: PersonalId, observaciones: string, fotoPath: string, sent: Option<bool>)

  /** `not r.get('sent', False)`: an absent flag counts as not sent. */
  predicate IsPending(r: StoredRecord)
  {
    r.sent != Some(true)
  }

  /** No two records carry the same timestamp, the key `mark_as_sent` looks records up by. */
  predicate UniqueTimestamps(records: seq<StoredRecord>)
  {
    forall j, k :: 0 <= j < k < |records| && records[j].timestamp.Some? ==> records[j].timestamp != records[k].timestamp
  }

  /** `j` is where the `for ... break` loop of `mark_as_sent(timestamp)` stops. */
  predicate IsFirstMatch(records: seq<StoredRecord>, timestamp: string, j: int)
  {
    && 0 <= j < |records|
    && records[j].timestamp == Some(timestamp)
    && forall k :: 0 <= k < j ==> records[k].timestamp != Some(timestamp)
  }

  /** The index of the first record stamped `timestamp`, or `|records|` when there is none. */
  function FirstMatch(records: seq<StoredRecord>, timestamp: string): (i: nat)
    ensures i <= |records|
    ensures i < |records| ==> records[i].timestamp == Some(timestamp)
    ensures forall k :: 0 <= k < i ==> records[k].timestamp != Some(timestamp)
  {
    if records == [] then 0
    else if records[0].timestamp == Some(timestamp) then 0
    else 1 + FirstMatch(records[1..], timestamp)
  }

  /** The list `mark_as_sent(timestamp)` writes back. */
  function MarkedSent(records: seq<StoredRecord>, timestamp: string): seq<StoredRecord>
  {
    var i := FirstMatch(records, timestamp);
    if i == |records| then records else records[i := records[i].(sent := Some(true))]
  }

  /**
   The loop of `mark_as_sent`: walk the list, set `sent` on the first record
   whose timestamp matches and stop.
   */
  method MarkFirstSent(records: seq<StoredRecord>, timestamp: string) returns (out: seq<StoredRecord>)
    ensures out == MarkedSent(records, timestamp)
  {
    out := records;
    var i := 0;
    while i < |out|
      invariant 0 <= i <= |records| && out == records
      invariant forall k :: 0 <= k < i ==> records[k].timestamp != Some(timestamp)
    {
      if out[i].timestamp == Some(timestamp) {
        out := out[i := out[i].(sent := Some(true))];
        return;
      }
      i := i + 1;
    }
  }

  /**
   Marking changes only the first record stamped `timestamp`, and in it only
   the flag; the length is unchanged and a list without a match comes back as it was.
   */
  lemma MarkedSentFrame(records: seq<StoredRecord>, timestamp: string)
    ensures |MarkedSent(records, timestamp)| == |records|
    ensures forall j :: 0 <= j < |records| ==>
      MarkedSent(records, timestamp)[j]
        == if IsFirstMatch(records, timestamp, j) then records[j].(sent := Some(true)) else records[j]
    ensures (forall j :: 0 <= j < |records| ==> records[j].timestamp != Some(timestamp))
      ==> MarkedSent(records, timestamp) == records
  {
    var i := FirstMatch(records, timestamp);
    forall j | 0 <= j < |records|
      ensures IsFirstMatch(records, timestamp, j) <==> j == i
    {
    }
  }

  /**
   After marking, the pending list is the old one without the marked record:
   the pending records before it, then those after it.
   */
  lemma {:induction false} PendingAfterMark(records: seq<StoredRecord>, timestamp: string)
    requires FirstMatch(records, timestamp) < |records|
    ensures var i := FirstMatch(records, timestamp);
      Filter(MarkedSent(records, timestamp), IsPending)
        == Filter(records[..i], IsPending) + Filter(records[i + 1..], IsPending)
  {
    var i := FirstMatch(records, timestamp);
    var marked := records[i].(sent := Some(true));
    calc {
      Filter(MarkedSent(records, timestamp), IsPending);
      == { UpdateSplits(records, i, marked); }
      Filter(records[..i] + [marked] + records[i + 1..], IsPending);
      == { FilterAppend(records[..i] + [marked], records[i + 1..], IsPending); }
      Filter(records[..i] + [marked], IsPending) + Filter(records[i + 1..], IsPending);
      == { FilterAppend(records[..i], [marked], IsPending); FilterSingleton(marked, IsPending); }
      Filter(records[..i], IsPending) + [] + Filter(records[i + 1..], IsPending);
      == { assert Filter(records[..i], IsPending) + [] == Filter(records[..i], IsPending); }
      Filter(records[..i], IsPending) + Filter(records[i + 1..], IsPending);
    }
  }

  /** With unique timestamps no pending record is left carrying the timestamp just marked. */
  lemma MarkedRecordLeavesPending(records: seq<StoredRecord>, timestamp: string)
    requires UniqueTimestamps(records)
    ensures forall r :: r in Filter(MarkedSent(records, timestamp), IsPending) ==> r.timestamp != Some(timestamp)
  {
    var i := FirstMatch(records, timestamp);
    var out := MarkedSent(records, timestamp);
    forall r | r in Filter(out, IsPending)
      ensures r.timestamp != Some(timestamp)
    {
      var j :| 0 <= j < |out| && out[j] == r;
      if i < |records| && j != i {
        assert out[j] == records[j];
        if j < i {
          assert records[j].timestamp != Some(timestamp);
        } else {
          assert records[i].timestamp != records[j].timestamp;
        }
      }
    }
  }

  /**
   Saving a record with a fresh timestamp and then marking that timestamp
   leaves the pending list exactly as it was before the save.
   */
  lemma SaveThenMarkRestoresPending(records: seq<StoredRecord>, record: StoredRecord, timestamp: string)
    requires record.timestamp == Some(timestamp)
    requires forall j :: 0 <= j < |records| ==> records[j].timestamp != Some(timestamp)
    ensures Filter(MarkedSent(records + [record], timestamp), IsPending) == Filter(records, IsPending)
  {
    var all := records + [record];
    assert FirstMatch(all, timestamp) == |records| by {
      assert all[|records|].timestamp == Some(timestamp);
      assert forall k :: 0 <= k < |records| ==> all[k].timestamp != Some(timestamp);
    }
    PendingAfterMark(all, timestamp);
    assert all[..|records|] == records && all[|records| + 1..] == [];
  }

  /** Saving a record with a fresh timestamp keeps the timestamps unique; marking never changes them. */
  lemma UniqueTimestampsPreserved(records: seq<StoredRecord>, record: StoredRecord, timestamp: string)
    requires UniqueTimestamps(records)
    ensures record.timestamp.Some? && (forall j :: 0 <= j < |records| ==> records[j].timestamp != record.timestamp)
      ==> UniqueTimestamps(records + [record])
    ensures UniqueTimestamps(MarkedSent(records, timestamp))
  {
    MarkedSentFrame(records, timestamp);
  }

  /** `LocalStorage`: the queue file `asistencia_local.json`. */
  class LocalStorage {
    var file: StoreFile<StoredRecord>

    /** A store over whatever the file on disk holds. */
    constructor (disk: StoreFile<StoredRecord>)
      ensures file == disk
    {
      file := disk;
    }

    /** `load_records()`: the stored list, `[]` when the file is missing or unparseable. */
    function LoadRecords(): seq<StoredRecord>
      reads this
    {
      file.Loaded()
    }

    /**
     `save_record(...)`: load, append, rewrite. `timestamp` is the
     `datetime.now().isoformat()` of the call and `write` how the rewrite ends.
     */
    method SaveRecord(timestamp: string, personalId: PersonalId, observaciones: string, fotoPath: string,
                      write: WriteOutcome, sent: bool := false) returns (ok: bool)
      modifies this
      ensures ok <==> write.WriteOk?
      ensures file == AfterWrite(old(file),
        old(LoadRecords()) + [StoredRecord(Some(timestamp), personalId, observaciones, fotoPath, Some(sent))], write)
    {
      var record := StoredRecord(Some(timestamp), personalId, observaciones, fotoPath, Some(sent));
      var records := LoadRecords();
      records := records + [record];
      file := AfterWrite(file, records, write);
      ok := write.WriteOk?;
    }

    /** `get_pending_records()`: the records not yet sent, in file order. */
    function GetPendingRecords(): (pending: seq<StoredRecord>)
      reads this
      ensures IsSubsequence(pending, LoadRecords())
      ensures forall r :: r in pending ==> IsPending(r)
      ensures forall i :: 0 <= i < |LoadRecords()| && IsPending(LoadRecords()[i]) ==> LoadRecords()[i] in pending
      ensures forall r :: multiset(pending)[r] == if IsPending(r) then multiset(LoadRecords())[r] else 0
    {
      FilterIsSubsequence(LoadRecords(), IsPending);
      FilterKeepsEveryKept(LoadRecords(), IsPending);
      FilterMultiset(LoadRecords(), IsPending);
      Filter(LoadRecords(), IsPending)
    }

    /**
     `mark_as_sent(timestamp)`: load, flag the first match, rewrite. The
     rewrite happens even without a match, so a missing or corrupt file ends
     up holding `[]`.
     */
    method MarkAsSent(timestamp: string, write: WriteOutcome)
      modifies this
      ensures file == AfterWrite(old(file), MarkedSent(old(LoadRecords()), timestamp), write)
    {
      var records := LoadRecords();
      records := MarkFirstSent(records, timestamp);
      file := AfterWrite(file, records, write);
    }
  }
}
