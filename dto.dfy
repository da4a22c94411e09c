/** The data transfer objects of `dto.py`: what goes to the API and what is kept locally. */
module Dto {
  import opened Wrappers

  /** `AsistenciaDTO`: the body sent to the API. */
  datatype AsistenciaDTO = AsistenciaDTO(observaciones: string, usuarioJolg: string, timestamp: Option<string>)
  {
    /**
     `to_dict()`: exactly the three API keys. A missing or empty timestamp is
     replaced by `now`, the `datetime.now().isoformat()` of the call.
     */
    function ToDict(now: string): (d: map<string, string>)
      ensures d.Keys == {"observaciones", "usuarioJolg", "timestamp"}
      ensures d["observaciones"] == observaciones && d["usuarioJolg"] == usuarioJolg
      ensures d["timestamp"] == if timestamp.Some? && timestamp.value != "" then timestamp.value else now
    {
      var ts := match timestamp
        case Some(t) => if t != "" then t else now
        case None => now;
      map["observaciones" := observaciones, "usuarioJolg" := usuarioJolg, "timestamp" := ts]
    }
  }

  /** `AsistenciaLocalDTO`: the locally stored form, with the photo and the sent flag. */
  datatype AsistenciaLocalDTO = AsistenciaLocalDTO(
    observaciones: string, usuarioJolg: string, timestamp: string, foto: Option<string>, enviado: bool)
  {
    /** `to_api_dto()`: the API form of this record. */
    function ToApiDto(): (d: AsistenciaDTO)
      ensures d.observaciones == observaciones && d.usuarioJolg == usuarioJolg
      ensures d.timestamp == Some(timestamp)
    {
      AsistenciaDTO(observaciones, usuarioJolg, Some(timestamp))
    }
  }

  /** The dataclass constructor with its defaults: `foto=None`, `enviado=False`. */
  function NewLocalDto(observaciones: string, usuarioJolg: string, timestamp: string): (d: AsistenciaLocalDTO)
    ensures d.foto == None && !d.enviado
    ensures d.observaciones == observaciones && d.usuarioJolg == usuarioJolg && d.timestamp == timestamp
  {
    AsistenciaLocalDTO(observaciones, usuarioJolg, timestamp, None, false)
  }

  /** The API form ignores the local-only fields: `foto` and `enviado` are dropped. */
  lemma ApiDtoDropsLocalFields(x: AsistenciaLocalDTO, foto: Option<string>, enviado: bool)
    ensures x.(foto := foto, enviado := enviado).ToApiDto() == x.ToApiDto()
  {
  }

  /**
   For a record with a non-empty timestamp, the dictionary sent to the API
   holds exactly its three shared fields, whatever the clock says.
   */
  lemma LocalDictIsItsFields(x: AsistenciaLocalDTO, now: string)
    requires x.timestamp != ""
    ensures x.ToApiDto().ToDict(now)
      == map["observaciones" := x.observaciones, "usuarioJolg" := x.usuarioJolg, "timestamp" := x.timestamp]
  {
  }
}
