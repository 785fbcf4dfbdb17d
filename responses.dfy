/** The uniform response envelope `{status, message, data: {result}}`. */
module Responses {
  import opened Basics

  const ResultKey: string := "result"

  /** HTTP status codes the library declares for its envelopes. */
  const BadRequest: int := 400
  const InternalServerError: int := 500
  const Created: int := 201
  const OK: int := 200
  const NotFound: int := 404
  const UnAuthorized: int := 401
  const ConflictOrDuplicateOrAlreadyExists: int := 409

  /** The envelope; each `data` entry is an untyped Go value, `None` being
      nil. */
  datatype GenericResponse<D> = GenericResponse(status: Int64, message: string, data: map<string, Option<D>>)

  /** The payload an envelope carries under its one key. */
  function Result<D>(r: GenericResponse<D>): Option<D>
    requires ResultKey in r.data
  {
    r.data[ResultKey]
  }

  /** `SetResponse`: a nil payload and a present one take different
      branches, both storing the payload under `result`. */
  function SetResponse<D>(status: Int64, message: string, data: Option<D>): (r: GenericResponse<D>)
    ensures r.status == status && r.message == message
    ensures r.data.Keys == {ResultKey}
    ensures Result(r) == data
  {
    if data.Some? then
      GenericResponse(status, message, map[ResultKey := data])
    else
      GenericResponse(status, message, map[ResultKey := None])
  }

  /** Two envelopes built by `SetResponse` are equal exactly when their
      status, message and payload are: the constructor loses nothing. */
  lemma SetResponseInjective<D>(s1: Int64, m1: string, d1: Option<D>, s2: Int64, m2: string, d2: Option<D>)
    ensures SetResponse(s1, m1, d1) == SetResponse(s2, m2, d2) <==> (s1, m1, d1) == (s2, m2, d2)
  {
    if SetResponse(s1, m1, d1) == SetResponse(s2, m2, d2) {
      assert Result(SetResponse(s1, m1, d1)) == d1;
    }
  }

  /** The envelope of a nil payload is the envelope of the explicit
      `{"result": nil}` map, the same shape the non-nil branch builds. */
  lemma NilPayloadEnvelope<D>(status: Int64, message: string)
    ensures SetResponse<D>(status, message, None).data == map[ResultKey := None]
  {
  }
}
