# JOLG attendance: the offline queue and its submission, in Dafny

This project models the core of the JOLG attendance (asistencia) desktop
application. An operator types a JOLG user, optional remarks, and takes a
webcam photo. The application saves an attendance record to a local JSON
file (`asistencia_local.json`) and tries to post it to the attendance API at
once. Records whose post failed stay "pending" and are retried later by
"Enviar pendientes".

Modules and the source they follow:

- `Store` (`store.dfy`): the queue file as the code can observe it. It is
  missing, present but unparseable, or a list of records. A whole-file
  rewrite either completes, fails to open (the old contents stay), or stops
  after truncating (the file no longer parses). `Filter` is the list
  comprehension both queues use to select pending records.
- `Http` (`http.dfy`): the outcome of one `requests` call. It either
  returns an accepted body, raises a `RequestException`, or raises another
  exception. The two failure messages both clients build are defined here.
- `Text`, `Digits`, `TimeFormat`: Python's `str.strip`, characterised by
  what it removes and by the uniqueness of that split. Also `str(int)` and
  the two `strftime` layouts the code writes, each with the parser that
  inverts it.
- `Dto` (`dto.dfy`): `AsistenciaDTO.to_dict` and
  `AsistenciaLocalDTO.to_api_dto`.
- `ApiModule` (`api_module.dfy`), covering three parts:
  - `APIClient.upload_file` and `APIClient.register_asistencia`, as
    functions of the HTTP outcome;
  - `AsistenciaWorker.run`, as the sequence of signals it emits and
    requests it sends;
  - `LocalStorage`, as a class whose `file` field its methods rewrite.
- `MainBackup` (`main_backup.dfy`), covering three parts:
  - `AsistenciaManager`, a class over the queue file with `guardar_local`,
    `enviar_a_api`, `marcar_como_enviado` and `obtener_pendientes`;
  - the form logic of `AsistenciaApp`: `registrar_asistencia`'s validation,
    photo path and save-then-send order;
  - the counting loop of `enviar_pendientes`.

  The main theorem is `RetryLeavesOnlyFailedPending`. The file must be a
  list of records in which every record has a `timestamp` key and no two
  share a timestamp, and every rewrite must end well. Then, after a retry, a pending record is still pending exactly
  when its own post failed, and no other record becomes pending.

Everything the code reads from outside is an input to the operation that
reads it:
- the clock: the `now` and `clock` parameters, plus the ISO timestamp string
  of a new record;
- whether a file exists;
- what each HTTP call returns;
- how each file rewrite ends;
- whether a camera frame is available.

A retry is handed one reply and one write outcome per call, indexed by the
call's position.

Some behaviour of the code is worth noting; the model follows the code:
- `main.py` (the current entry point) never calls
  `LocalStorage.mark_as_sent`. A record saved by the current application can
  therefore stay unsent forever. This is outside the modelled core; the model
  covers the operation itself.
- `mark_as_sent` rewrites the file even when nothing matched. A missing or
  unparseable file is thus replaced by an empty list (`MarkAsSent`).
- `guardar_local` does not report a failed rewrite by returning false: the
  exception propagates to `registrar_asistencia`, which shows a critical
  error (`RegistrarAsistencia`).
- The default `fechaHoraRegistro` ends in `Z` but is formatted from the
  local clock, not from UTC (`RegisterAsistencia` takes the local reading
  `now`).
- In `marcar_como_enviado`, a record without a `timestamp` key that comes
  before the match makes the loop raise `KeyError`. The bare `except`
  swallows it and the file is left unchanged, so the record just sent stays
  pending (`UnstampedRecordBlocksMarking`).

## Model

| member | source | states |
|---|---|---|
| Text.LeadingRun | main_backup.py:264-265 | the length of the longest prefix made only of stripped characters: everything before it is stripped, the next character is not |
| Text.TrailingRun | main_backup.py:264-265 | the length of the longest such suffix, with the same maximality |
| Text.LeadingRunUnique | main_backup.py:264-265 | any prefix length with those two properties is the one `LeadingRun` finds |
| Text.TrailingRunUnique | main_backup.py:264-265 | any suffix length with those two properties is the one `TrailingRun` finds |
| Text.Strip | api_module.py:54 | `str.strip(chars)`: the result is no longer than the input and neither starts nor ends with a stripped character |
| Text.StripSplits | api_module.py:54 | the input is stripped-prefix + result + stripped-suffix, so only end characters are removed |
| Text.StripUnique | api_module.py:54 | any split into an all-stripped prefix, a middle with no stripped ends, and an all-stripped suffix gives that middle as the result |
| Text.StripSpace | main_backup.py:264-265 | `str.strip()`: no longer than the input, and no `str.isspace` character at either end |
| Text.StripIdempotent | main_backup.py:264-265 | stripping twice is stripping once |
| Digits.NatToString | main_backup.py:339-340 | `str(n)` for `n >= 0`: non-empty, all digits, no leading zero unless `n == 0` |
| Digits.NatToStringRoundTrip | main_backup.py:339-340 | reading the decimal string back gives `n` |
| TimeFormat.Pad | api_module.py:79 | a `strftime` numeric field: exactly `width` digits |
| TimeFormat.PadValue | api_module.py:79 | reading a padded field back gives the number |
| TimeFormat.PadOfValue | api_module.py:79 | a digit string is the padding of its own value |
| TimeFormat.GroupRoundTrip | api_module.py:79 | three padded fields joined by a separator parse back to the same three numbers |
| TimeFormat.ParsedGroupFormats | api_module.py:79 | anything the group parser accepts is the formatting of what it returns |
| TimeFormat.IsoSeconds | api_module.py:79 | `%Y-%m-%dT%H:%M:%S` writes 19 characters |
| TimeFormat.FechaHora | api_module.py:79 | the default `fechaHoraRegistro` is 20 characters with `-`, `-`, `T`, `:`, `:` and the final `Z` in their places |
| TimeFormat.FechaHoraRoundTrip | api_module.py:79 | parsing `fechaHoraRegistro` gives back the instant it was made from |
| TimeFormat.ParsedFechaHoraFormats | api_module.py:79 | every accepted string is the formatting of the instant parsed from it, so the layout is a bijection |
| TimeFormat.CompactStamp | main_backup.py:277 | `%Y%m%d_%H%M%S` writes 15 characters with `_` at index 8 |
| TimeFormat.CompactStampRoundTrip | main_backup.py:277 | the compact stamp parses back to the instant |
| TimeFormat.ParsedCompactStampFormats | main_backup.py:277 | every accepted compact stamp is the formatting of what it parses to |
| Store.Filter | api_module.py:211 | the comprehension keeps only elements that satisfy the test and come from the input, and never grows the list |
| Store.FilterKeepsEveryKept | api_module.py:211 | no element that satisfies the test is dropped |
| Store.FilterMultiset | api_module.py:211 | each element occurs in the result as often as in the input when it satisfies the test, and not at all otherwise |
| Store.FilterIsSubsequence | api_module.py:211 | the kept elements keep their relative order |
| Store.StoreFile.Loaded | api_module.py:195-206 | the tolerant load: the stored list, `[]` for a missing or unparseable file |
| Store.AfterWrite | api_module.py:188-193 | a completed rewrite stores the new list, a failed open keeps the old file, an interrupted dump leaves it unparseable |
| Store.FilterAppend | api_module.py:185-186 | filtering a list with a record appended is filtering the list, then the record if kept |
| Store.FilterIdempotent | api_module.py:211 | the comprehension is idempotent: filtering its output with the same test changes nothing |
| Store.FilterAllKept | main_backup.py:141 | a list where every element is kept filters to itself |
| MainBackup.NeverSentAllPending | main_backup.py:133-143 | a file none of whose records was marked sent is returned whole by `obtener_pendientes` |
| Dto.AsistenciaDTO.ToDict | dto.py:26-32 | exactly the keys `observaciones`, `usuarioJolg`, `timestamp`; fields copied; a missing or empty timestamp replaced by the call's clock |
| Dto.AsistenciaLocalDTO.ToApiDto | dto.py:47-53 | the API form carries the same observations, user and timestamp |
| Dto.NewLocalDto | dto.py:35-45 | the dataclass defaults: no photo, not sent, the given fields |
| Dto.ApiDtoDropsLocalFields | dto.py:47-53 | the API form does not depend on `foto` or `enviado` |
| Dto.LocalDictIsItsFields | dto.py:26-32 | for a non-empty timestamp, the dictionary sent is the record's three shared fields, whatever the clock |
| ApiModule.UploadReference | api_module.py:53-56 | an empty body gives `files/uploaded`; otherwise the body without its quote characters, no longer than the body and with no quote at either end |
| ApiModule.UploadReferenceSplitsBody | api_module.py:54 | a non-empty body is quotes + reference + quotes |
| ApiModule.UploadReferenceOfQuotedPath | api_module.py:52-54 | a JSON string literal `"x"` yields `x` |
| ApiModule.UploadReferenceOfQuotesOnly | api_module.py:53-54 | a body made only of quotes yields the empty reference, not the default |
| ApiModule.UploadFile | api_module.py:20-61 | the PUT is sent iff the file exists; success iff it exists and the PUT was accepted; `Archivo no encontrado`, the connection message or the unexpected-error message otherwise; on success the reference from the body |
| ApiModule.StationNumber | api_module.py:82-88 | the station number is 1 to 3; it is 2 or 3 exactly for `TIENDA2` or `TIENDA3` |
| ApiModule.UnknownStationIsStationOne | api_module.py:88 | any other identifier, integers included, is sent as station 1, the same as `TIENDA1` |
| ApiModule.SentObservaciones | api_module.py:92 | empty exactly for a missing or empty value; otherwise the value itself |
| ApiModule.RegisterAsistencia | api_module.py:63-120 | payload fields are the mapped station, the observations, the photo reference, and the given date or one that parses back to `now`; success iff the POST was accepted and its body is empty or decodes as JSON; the result is `Asistencia registrada` for an empty body, the body otherwise; the failure message when the POST fails, and a connection error when a non-empty body does not decode |
| ApiModule.Accepted | api_module.py:114-115 | the registration succeeds iff the POST was accepted and its body is empty or decodes as JSON |
| ApiModule.RejectionMessage | api_module.py:115-120 | a failed POST gives its connection or unexpected-error message; an accepted body that is not JSON gives `Error de conexión: ` and the decoder's message |
| ApiModule.AsistenciaWorker.Events | api_module.py:136-161 | starts with `Subiendo foto...`; ends with the one `finished` signal; success iff upload and registration both succeeded; an upload failure is reported with `Error subiendo foto: ` and its message; after a successful upload the last signal is `Asistencia registrada exitosamente`, or `Error registrando asistencia: ` with the registration's message |
| ApiModule.AsistenciaWorker.Run | api_module.py:136-161 | the same, in terms of whether the photo exists, the replies to the two calls and whether the registration's body decodes: success iff the upload and registration are both accepted, with each final message pinned |
| ApiModule.AsistenciaWorker.RunFinishesOnce | api_module.py:143-161 | `finished` is emitted once, as the last event |
| ApiModule.AsistenciaWorker.RunUploadsOnlyExistingPhoto | api_module.py:31-48 | the PUT happens exactly when the photo file exists |
| ApiModule.AsistenciaWorker.RunRegistersUploadResult | api_module.py:141-156 | a registration is posted only after the PUT, only when the upload succeeded, and carries the upload's reference as `fotoRuta` |
| ApiModule.AsistenciaWorker.EventsPostAfterPut | api_module.py:141-156 | in any run the POST can only follow a successful PUT, at its fixed position |
| ApiModule.AsistenciaWorker.RunRegistersAfterUpload | api_module.py:147-156 | a successful upload is always followed by the registration POST |
| ApiModule.IsPending | api_module.py:211 | `not r.get('sent', False)`: a record is pending unless its flag is true; an absent flag counts as unsent |
| ApiModule.FirstMatch | api_module.py:218-221 | where the loop stops: the first record with the timestamp, or the end |
| ApiModule.MarkedSent | api_module.py:217-221 | the list with the first record stamped `timestamp` flagged as sent |
| ApiModule.MarkFirstSent | api_module.py:217-221 | the loop computes `MarkedSent` |
| ApiModule.MarkedSentFrame | api_module.py:217-221 | same length; only the first match changes, and only its `sent` flag; no match leaves the list as it was |
| ApiModule.PendingAfterMark | api_module.py:208-221 | after marking, the pending list is the old pending list with the marked record removed |
| ApiModule.MarkedRecordLeavesPending | api_module.py:208-221 | with distinct timestamps, no pending record keeps the marked timestamp |
| ApiModule.SaveThenMarkRestoresPending | api_module.py:173-221 | saving a record with a fresh timestamp and marking it gives back the pending list from before the save |
| ApiModule.UniqueTimestampsPreserved | api_module.py:173-221 | appending a fresh timestamp and marking both keep timestamps distinct |
| ApiModule.LocalStorage.LoadRecords | api_module.py:195-206 | `load_records()` is the tolerant load of the file |
| ApiModule.LocalStorage.SaveRecord | api_module.py:173-193 | the file is the loaded list plus the new record, rewritten with the given outcome; returns true iff the rewrite completed |
| ApiModule.LocalStorage.GetPendingRecords | api_module.py:208-211 | an order-preserving sublist of the loaded records; all of them unsent; every unsent record present, as many times as it is stored |
| ApiModule.LocalStorage.MarkAsSent | api_module.py:213-227 | the file is the loaded list with the first match flagged, rewritten even when nothing matched |
| ApiModule.LocalStorage.constructor | api_module.py:170-171 | a store over the file as it is on disk |
| MainBackup.IsPendiente | main_backup.py:141 | `not r.get("enviado", False)`: pending unless the flag is true; an absent flag counts as unsent |
| MainBackup.FirstStop | main_backup.py:123-126 | the loop stops at the first record that lacks a timestamp or matches; every earlier record has a different timestamp |
| MainBackup.MarcarPrimero | main_backup.py:119-126 | the loop raises exactly when `MarkedEnviado` is None and otherwise computes that list |
| MainBackup.MarkedEnviadoFrame | main_backup.py:119-131 | raises iff a record without timestamp precedes every match; otherwise only the first match changes, and only its `enviado` |
| MainBackup.MarkedEnviado | main_backup.py:119-131 | the flagged list, or None when a record without timestamp comes first |
| MainBackup.MarcarEnviadoFile | main_backup.py:114-131 | a missing or unreadable file, or a raised `KeyError`, leaves the file unchanged; otherwise the flagged list is written with the given outcome |
| MainBackup.StampedNeverRaises | main_backup.py:123-124 | on a file whose every record has a timestamp the loop never raises |
| MainBackup.BuildDto | main_backup.py:96-100 | built iff all three keys are present, with exactly those keys and the fields copied; otherwise the first key the record lacks, in the order `observaciones`, `usuarioJolg`, `timestamp` |
| MainBackup.PostedBody | main_backup.py:96-102 | the body posted for a record, or none when building the DTO raised before the POST |
| MainBackup.Sends | main_backup.py:96-107 | `enviar_a_api` succeeds iff the DTO was built and the POST accepted |
| MainBackup.BuildDtoIsApiDict | main_backup.py:96-100 | the posted body equals `AsistenciaDTO.to_dict()` of the same fields |
| MainBackup.AsistenciaManager.NewRegistro | main_backup.py:66-72 | the record `guardar_local` writes: its fields, and `enviado` false |
| MainBackup.AsistenciaManager.GuardarLocal | main_backup.py:62-90 | the file is the loaded list plus a record with `enviado: False`, rewritten with the given outcome; the record is returned iff the rewrite completed |
| MainBackup.AsistenciaManager.MarcarComoEnviado | main_backup.py:114-131 | a missing or unreadable file is untouched; otherwise the first match is flagged and rewritten, unless the loop raised |
| MainBackup.AsistenciaManager.ObtenerPendientes | main_backup.py:133-143 | an order-preserving sublist of the loaded records, all pending, with every pending record present as many times as it is stored |
| Http.FailureMessage | api_module.py:58-61 | `Error de conexión: ` for a `RequestException`, `Error inesperado: ` for any other exception, followed by its text |
| MainBackup.EnvioMessage | main_backup.py:102-112 | `Enviado exitosamente` on success; the `KeyError` message naming the missing key; the failure message of the POST |
| MainBackup.AsistenciaManager.EnviarAApi | main_backup.py:92-112 | posts the record's three fields; success iff the DTO was built and the POST accepted; the message for each case; the record is marked only on success |
| MainBackup.AsistenciaManager.constructor | main_backup.py:58-60 | a manager over the file as it is on disk |
| MainBackup.GuardarQueuesPending | main_backup.py:62-90 | a saved record joins the end of the pending list |
| MainBackup.GuardarThenMarcar | main_backup.py:62-131 | saving then marking the new timestamp marks only the new record, and the pending list is what it was before the save |
| MainBackup.UnstampedRecordBlocksMarking | main_backup.py:119-131 | a record without timestamp anywhere ahead of the match leaves the file unchanged, so the sent record stays pending |
| MainBackup.CountSent | main_backup.py:332-336 | the count of successes never exceeds the number of calls |
| MainBackup.AfterSends | main_backup.py:332-336 | the file after the first `n` calls: each successful call marks its record's timestamp |
| MainBackup.MarkAll | main_backup.py:333-334 | each record is flagged iff its timestamp is among those sent |
| MainBackup.MarkStep | main_backup.py:114-131 | marking one more sent timestamp in a well-stamped file adds it to the marked set |
| MainBackup.AfterSendsMarksSent | main_backup.py:324-336 | with every rewrite completed, the retry's file is the original with exactly the sent timestamps flagged |
| MainBackup.FilterKeepsUniqueStamps | main_backup.py:141 | the pending list of a file with distinct timestamps has distinct timestamps |
| MainBackup.SameStampSameIndex | main_backup.py:123-124 | with distinct timestamps a timestamp identifies one index |
| MainBackup.SentStampsOfPending | main_backup.py:332-336 | a pending record's timestamp was sent iff its own call succeeded |
| MainBackup.PendingAfterMarking | main_backup.py:133-143 | a pending record stays pending iff its timestamp was not marked |
| MainBackup.MarkingAddsNoPending | main_backup.py:133-143 | marking makes no record pending |
| MainBackup.PendingWellStamped | main_backup.py:133-143 | the pending records of a well-stamped file are well-stamped |
| MainBackup.RetryLeavesOnlyFailedPending | main_backup.py:324-336 | after a retry with every rewrite completed, a pending record is still pending iff its post failed, and nothing else is pending |
| MainBackup.FotoPath | main_backup.py:277-279 | `fotos/foto_<user>_<%Y%m%d_%H%M%S>.jpg` |
| MainBackup.PhotoNameSlices | main_backup.py:278-279 | the pieces of a photo path lie at fixed offsets |
| MainBackup.FotoPathParts | main_backup.py:277-279 | `fotos/foto_<user>_<stamp>.jpg`: the user and the instant can both be read back |
| MainBackup.FotoPathInjective | main_backup.py:277-279 | two photos share a path only for the same user in the same second |
| MainBackup.SentReport | main_backup.py:339-340 | `Se enviaron <n> de <total> registros` |
| MainBackup.RetryNotice | main_backup.py:328-345 | `Info` when nothing is pending, `Éxito` with the count when something was sent, the warning otherwise |
| MainBackup.AsistenciaApp.RegistrarAsistencia | main_backup.py:262-321 | empty user or no frame: the matching warning and nothing saved; a failed save: the critical error; otherwise the record is saved with the photo path and posted, then marked and `Éxito`, or left pending and `Guardado Local` with the failure message |
| MainBackup.AsistenciaApp.EnviarPendientes | main_backup.py:324-345 | one post per pending record in file order; the count of successes; the file after every call; `Info`, `Éxito` with the count, or the warning |
| MainBackup.AsistenciaApp.SendEach | main_backup.py:332-336 | the loop posts each record's body, counts the successes and leaves the file the calls produce |
| MainBackup.AsistenciaApp.constructor | main_backup.py:149-151 | an application whose manager works on the given file |

## Left out

- The HTTP transport, headers, timeouts and endpoint URLs. Each call's outcome is an input, and the body of an accepted reply is its text.
- `response.json()` in `register_asistencia`: whether it decodes is an input, and a decoded body is returned as the body text, not as the decoded value.
- ApiModule.UploadFile: takes an empty response text to mean an empty body, so an accepted upload with an empty text always gives `files/uploaded`. The `response.json()` call that `upload_file` makes for non-empty content whose text is empty is not modelled.
- ApiModule.RejectionMessage: reports a body that is not JSON as a connection error, as `requests` 2.27 and later do (their decode error is a `RequestException`); older versions raise `ValueError`, which gives `Error inesperado: ` instead.
- The case in `upload_file` where the photo exists but cannot be opened. It raises before any PUT is sent; here it is a `Raised` reply with the PUT recorded as sent.
- JSON encoding and decoding of the queue file. The model also leaves out values of the wrong type (a non-string or `null` timestamp, a `sent` flag that is truthy but not `True`), a top-level value that is not a list, and entries that are not objects. Only booleans and absent keys are modelled for the flags.
- The clock and the file system's existence checks: both are parameters.
- Threads, Qt signals and the event loop. `AsistenciaWorker.run` is a sequence of events, and its outer `except`, which only catches failures of signal emission, is not modelled.
- Everything in `registrar_asistencia` that can only raise for reasons outside the model: the camera and its frame, `QImage` conversion, `cv2.imwrite` and `os.makedirs`. Only a failed save leads to the critical error here.
- The status label texts and styles, and clearing the remarks field.
- TimeFormat.Pad: always pads `%Y` to four digits; glibc's `strftime` writes years below 1000 with fewer digits.
- The layout of record timestamps (`datetime.now().isoformat()`, which may carry microseconds): they are opaque strings passed in.
- MainBackup.FotoPath: uses the POSIX separator for `os.path.join`.
- The Qt widgets themselves: the texts of the user and remarks fields are inputs to `RegistrarAsistencia`.
- `main.py`, `ui_module.py`, `camera_module.py`, `test_new.py` and `api_examples.py` are not part of this model.
- The debug `print` calls in `register_asistencia`.
