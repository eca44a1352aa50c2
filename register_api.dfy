/** The registration API handler: checks the method and the required fields,
    then saves one user record with no check for duplicates. */
module RegisterFaceApi {
  import opened Wrappers
  import opened Faces
  import opened Users
  import LoginFaceApi

  /** What the handler reads from the request; an empty string stands for a missing field. */
  datatype Request = Request(httpMethod: string, name: string, email: string, faceEmbedding: Option<Descriptor>)

  /** What the database does: connecting or saving may throw, with an error message. */
  datatype Database = Database(connectError: Option<string>, saveError: Option<string>)

  /** The JSON payloads: `{message}` and `{message, error}`. */
  datatype Body = Message(message: string) | ErrorReport(message: string, error: string)

  datatype Response = Response(status: int, body: Body)

  /** A user record as this handler saves it. */
  predicate Complete(u: UserRecord)
  {
    u.name != "" && u.email != "" && u.faceEmbedding.Some?
  }

  /** The fields the handler insists on, each truthy. */
  predicate HasRequiredFields(req: Request)
    // exactly the requests whose saved record would be complete
    ensures HasRequiredFields(req) <==> Complete(UserRecord(req.name, req.email, req.faceEmbedding))
  {
    req.name != "" && req.email != "" && req.faceEmbedding.Some?
  }


  /** The user collection, only ever appended to. */
  class UserStore {
    var users: seq<UserRecord>

    /** Every stored record came through the handler, so every one is complete. */
    ghost predicate Valid()
      reads this
    {
      forall k :: 0 <= k < |users| ==> Complete(users[k])
    }

    constructor ()
      ensures Valid() && users == []
    {
      users := [];
    }

    method Handler(req: Request, db: Database) returns (resp: Response)
      requires Valid()
      modifies this
      ensures Valid()
      ensures req.httpMethod != "POST" ==>
        resp == Response(405, Message("Method not allowed")) && users == old(users)
      ensures req.httpMethod == "POST" && db.connectError.Some? ==>
        resp == Response(500, ErrorReport("Internal Server Error", db.connectError.value)) && users == old(users)
      ensures req.httpMethod == "POST" && db.connectError.None? && !HasRequiredFields(req) ==>
        resp == Response(400, Message("Missing required fields")) && users == old(users)
      ensures req.httpMethod == "POST" && db.connectError.None? && HasRequiredFields(req) && db.saveError.Some? ==>
        resp == Response(500, ErrorReport("Internal Server Error", db.saveError.value)) && users == old(users)
      ensures req.httpMethod == "POST" && db.connectError.None? && HasRequiredFields(req) && db.saveError.None? ==>
        resp == Response(201, Message("User registered successfully")) &&
        users == old(users) + [UserRecord(req.name, req.email, req.faceEmbedding)]
      ensures resp.status == 201 <==> |users| == |old(users)| + 1
      ensures resp.status != 201 ==> users == old(users)
    {
      if req.httpMethod != "POST" {
        return Response(405, Message("Method not allowed"));
      }
      if db.connectError.Some? {
        return Response(500, ErrorReport("Internal Server Error", db.connectError.value));
      }
      if req.name == "" || req.email == "" || req.faceEmbedding.None? {
        return Response(400, Message("Missing required fields"));
      }
      var user := UserRecord(req.name, req.email, req.faceEmbedding);
      if db.saveError.Some? {
        return Response(500, ErrorReport("Internal Server Error", db.saveError.value));
      }
      users := users + [user];
      resp := Response(201, Message("User registered successfully"));
    }
  }

  /** Registering never stops a scan early, so a face enrolled last is always reached: a login
      with the very embedding just saved finds some user (the saved one, or an earlier match)
      or stops at an earlier record whose length does not fit; it is never "not recognized". */
  lemma RegisteredFaceIsFound(users: seq<UserRecord>, name: string, email: string, e: Descriptor)
    ensures LoginFaceApi.FirstMatch(e, users + [UserRecord(name, email, Some(e))]) != LoginFaceApi.NoMatch
  {
    var all := users + [UserRecord(name, email, Some(e))];
    DistanceToSelf(e);
    assert LoginFaceApi.Judge(e, all[|users|]) == LoginFaceApi.Near;
  }
}
