/**
 * The document store gateway: one named collection of documents addressed by
 * id, with the get/set/update/delete calls the handlers make, and the response
 * envelope the handlers answer with.
 */
module Store {
  import opened Json

  /** A query result row: the document's id and its data. */
  datatype Snapshot = Snapshot(id: string, data: Doc)

  /** The ids of a list of query results. */
  function Ids(view: seq<Snapshot>): set<string>
  {
    set s | s in view :: s.id
  }

  /**
   * Which store call of a handler throws, counting its calls from 0. A call
   * that throws changes nothing, and the handler's catch answers 500.
   */
  datatype Fault = NoFault | FailsAt(call: nat)
  {
    predicate Fails(i: nat)
    {
      FailsAt? && call == i
    }
  }

  /** The HTTP status of the envelope; only Ok carries `status: "Success"`. */
  datatype Status = Ok | BadRequest | NotFound | InternalError
  {
    function Code(): (c: int)
      ensures c == 200 <==> this == Ok
      ensures c in {200, 400, 404, 500}
    {
      match this
      case Ok => 200
      case BadRequest => 400
      case NotFound => 404
      case InternalError => 500
    }
  }

  /** An envelope whose `data` is present exactly on success. */
  datatype Response<T> = Response(status: Status, data: Option<T>)
  {
    predicate WellFormed()
    {
      data.Some? <==> status == Ok
    }
  }

  class Collection {
    var docs: map<string, Doc>

    constructor ()
      ensures docs == map[]
    {
      docs := map[];
    }

    /** `doc(id).get()`: the stored document, if there is one. */
    method Get(id: string) returns (r: Option<Doc>)
      ensures id in docs ==> r == Some(docs[id])
      ensures id !in docs ==> r == None
    {
      r := if id in docs then Some(docs[id]) else None;
    }

    /** `doc(id).set(d)`: create the document or replace it entirely. */
    method Set(id: string, d: Doc)
      modifies this
      ensures docs == old(docs)[id := d]
    {
      docs := docs[id := d];
    }

    /**
     * `doc(id).update(patch)`: overwrite the fields of `patch` in an existing
     * document and keep its other fields; reports failure, and writes nothing,
     * when there is no document `id`.
     */
    method Update(id: string, patch: Doc) returns (found: bool)
      modifies this
      ensures found <==> id in old(docs)
      ensures found ==> docs == old(docs)[id := Spread(old(docs)[id], patch)]
      ensures !found ==> docs == old(docs)
    {
      found := id in docs;
      if found {
        docs := docs[id := Spread(docs[id], patch)];
      }
    }

    /** `doc(id).delete()`: no error when there is no such document. */
    method Delete(id: string)
      modifies this
      ensures docs == old(docs) - {id}
    {
      docs := docs - {id};
    }
  }
}
