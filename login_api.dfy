/** The login API handler: checks the request, then scans the stored users in
    order and accepts the first one whose embedding lies within the threshold. */
module LoginFaceApi {
  import opened Wrappers
  import opened Faces
  import opened Users

  /** What the handler reads from the request. */
  datatype Request = Request(httpMethod: string, faceEmbedding: Option<Descriptor>)

  /** The database as the handler finds it: connecting throws, the query throws, or the users. */
  datatype Store = Unreachable | FindFails | Loaded(users: seq<UserRecord>)

  /** The JSON payloads: `{message}`, `{success: false, message}` and `{success: true, name}`. */
  datatype Body = Message(message: string) | Rejected(message: string) | Accepted(name: string)

  datatype Response = Response(status: int, body: Body)

  /** Distances strictly below 0.6 match; the comparison is made on squares. */
  const Threshold: real := 0.6

  /** How the loop treats one stored user. */
  datatype Verdict =
    | Skip      // no embedding stored: `continue`
    | Far       // distance at or above the threshold
    | Near      // distance below the threshold: the match
    | Mismatch  // lengths differ: the distance function throws

  function Judge(probe: Descriptor, u: UserRecord): (v: Verdict)
    ensures v == Skip <==> u.faceEmbedding.None?
    ensures v == Mismatch <==> u.faceEmbedding.Some? && |u.faceEmbedding.value| != |probe|
    ensures v == Near <==>
      (u.faceEmbedding.Some? && |u.faceEmbedding.value| == |probe| &&
       SquaredDistance(probe, u.faceEmbedding.value) < Threshold * Threshold)
  {
    match u.faceEmbedding
    case None => Skip
    case Some(e) =>
      if |e| != |probe| then Mismatch
      else if SquaredDistance(probe, e) < Threshold * Threshold then Near
      else Far
  }

  /** The loop moves past this user. */
  predicate Passes(probe: Descriptor, u: UserRecord)
    // skipped for lack of an embedding, or of the probe's length and at least the threshold away
    ensures Passes(probe, u) <==>
      u.faceEmbedding.None? ||
      (|u.faceEmbedding.value| == |probe| && SquaredDistance(probe, u.faceEmbedding.value) >= Threshold * Threshold)
  {
    Judge(probe, u) == Skip || Judge(probe, u) == Far
  }

  /** Where the scan stops: a match, the end of the list, or a throwing distance. */
  datatype Scan = Matched(index: nat) | NoMatch | DistanceThrows(index: nat)

  /** The scan over the users in order, stopping at the first user that is not passed. */
  function FirstMatch(probe: Descriptor, users: seq<UserRecord>): (r: Scan)
    ensures r.Matched? ==> r.index < |users| && Judge(probe, users[r.index]) == Near
    ensures r.DistanceThrows? ==> r.index < |users| && Judge(probe, users[r.index]) == Mismatch
    ensures r.NoMatch? ==> forall j :: 0 <= j < |users| ==> Passes(probe, users[j])
    ensures !r.NoMatch? ==> forall j :: 0 <= j < r.index ==> Passes(probe, users[j])
    decreases |users|
  {
    if users == [] then NoMatch
    else
      match Judge(probe, users[0])
      case Near => Matched(0)
      case Mismatch => DistanceThrows(0)
      case _ =>
        match FirstMatch(probe, users[1..])
        case Matched(k) => Matched(k + 1)
        case DistanceThrows(k) => DistanceThrows(k + 1)
        case NoMatch => NoMatch
  }

  const ServerError := Response(500, Message("Server error"))

  /** The response for a completed scan. */
  function ScanResponse(users: seq<UserRecord>, scan: Scan): (resp: Response)
    requires !scan.NoMatch? ==> scan.index < |users|
    ensures scan.Matched? ==> resp == Response(200, Accepted(users[scan.index].name))
    ensures scan.NoMatch? ==> resp == Response(401, Rejected("Face not recognized"))
    ensures scan.DistanceThrows? ==> resp == ServerError
  {
    match scan
    case Matched(k) => Response(200, Accepted(users[k].name))
    case NoMatch => Response(401, Rejected("Face not recognized"))
    case DistanceThrows(_) => ServerError
  }

  /** The handler: the loop breaks at the first match and a throwing distance ends it. */
  method Handler(req: Request, store: Store) returns (resp: Response)
    ensures req.httpMethod != "POST" ==> resp == Response(405, Message("Method not allowed"))
    ensures req.httpMethod == "POST" && store.Unreachable? ==> resp == ServerError
    ensures req.httpMethod == "POST" && !store.Unreachable? && req.faceEmbedding.None? ==>
      resp == Response(400, Message("Face embedding missing"))
    ensures req.httpMethod == "POST" && store.FindFails? && req.faceEmbedding.Some? ==> resp == ServerError
    ensures req.httpMethod == "POST" && store.Loaded? && req.faceEmbedding.Some? ==>
      resp == ScanResponse(store.users, FirstMatch(req.faceEmbedding.value, store.users))
  {
    if req.httpMethod != "POST" {
      return Response(405, Message("Method not allowed"));
    }
    if store.Unreachable? {
      return ServerError;
    }
    if req.faceEmbedding.None? {
      return Response(400, Message("Face embedding missing"));
    }
    if store.FindFails? {
      return ServerError;
    }
    var probe := req.faceEmbedding.value;
    var users := store.users;
    var matched: Option<nat> := None;
    for i := 0 to |users|
      invariant matched.None?
      invariant forall j :: 0 <= j < i ==> Passes(probe, users[j])
    {
      var user := users[i];
      if user.faceEmbedding.None? {
        continue;
      }
      var e := user.faceEmbedding.value;
      if |e| != |probe| {
        return ServerError;
      }
      var dist := SquaredDistance(probe, e);
      if dist < Threshold * Threshold {
        matched := Some(i);
        assert FirstMatch(probe, users) == Matched(i);
        break;
      }
    }
    if matched.None? {
      return Response(401, Rejected("Face not recognized"));
    }
    return Response(200, Accepted(users[matched.value].name));
  }

  /** Two enrolled users and two probes, all two-dimensional. */
  const Enrolled := [UserRecord("u1", "u1@example.com", Some([0.0, 0.0])),
                     UserRecord("u2", "u2@example.com", Some([1.0, 1.0]))]

  /** A probe close to the first user is accepted as that user; one far from both is not. */
  lemma MatchScenarios()
    ensures FirstMatch([0.05, 0.05], Enrolled) == Matched(0)
    ensures FirstMatch([5.0, 5.0], Enrolled) == NoMatch
  {
    assert SquaredDistance([0.05, 0.05], [0.0, 0.0]) == 0.005 by {
      assert [0.05, 0.05][1..] == [0.05];
      assert [0.0, 0.0][1..] == [0.0];
    }
    assert SquaredDistance([5.0, 5.0], [0.0, 0.0]) == 50.0 by {
      assert [5.0, 5.0][1..] == [5.0];
      assert [0.0, 0.0][1..] == [0.0];
    }
    assert SquaredDistance([5.0, 5.0], [1.0, 1.0]) == 32.0 by {
      assert [5.0, 5.0][1..] == [5.0];
      assert [1.0, 1.0][1..] == [1.0];
    }
    assert Enrolled[1..] == [Enrolled[1]];
  }

  /** A second user enrolled with exactly the probe's embedding, after one at distance 0.5. */
  const Shadowed := [UserRecord("u1", "u1@example.com", Some([0.0, 0.0])),
                     UserRecord("u3", "u3@example.com", Some([0.0, 0.5]))]

  /** The scan takes the first user within the threshold, not the nearest one. */
  lemma FirstNotNearest()
    ensures FirstMatch([0.0, 0.5], Shadowed) == Matched(0)
    ensures SquaredDistance([0.0, 0.5], [0.0, 0.5]) < SquaredDistance([0.0, 0.5], [0.0, 0.0])
  {
    assert SquaredDistance([0.0, 0.5], [0.0, 0.0]) == 0.25 by {
      assert [0.0, 0.5][1..] == [0.5];
      assert [0.0, 0.0][1..] == [0.0];
    }
    DistanceToSelf([0.0, 0.5]);
  }
}
