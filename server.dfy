/** The enrollment and matching endpoints of the backend (backend/main.py):
    `/register`, `/upload-dataset` and `/verify`, over an in-memory picture of
    the three database tables. The image decoder, the face-embedding model and
    the cosine distance are foreign numeric code and enter as an `Oracle`. */
module Server {
  import opened Wrappers
  import opened DataUrl
  import opened Numerals

  /** A face embedding. */
  type Vector = seq<real>

  /** A decoded picture; only the embedding model looks inside it. */
  type Image = seq<int>

  /** What `DeepFace.represent` does with one picture: it raises, or it
      returns one embedding per face it found (possibly none). */
  datatype Represented = Raises | Faces(embeddings: seq<Vector>)

  /** The foreign calls the endpoints make. */
  datatype Oracle = Oracle(
    decode: string -> Option<Image>,     // base64 decoding and `cv2.imdecode`; None when either fails
    represent: Image -> Represented,     // `DeepFace.represent` with Facenet512 and the opencv detector
    distance: (Vector, Vector) -> real)  // `find_cosine_distance(db_vector, target)`

  /** Whether the database calls of a request succeed; on failure the open
      transaction is never committed, so the tables are unchanged. */
  datatype Db = Available | Fails(error: string)

  /** A reply of an endpoint. */
  datatype Reply =
    | Raised(code: nat, detail: string)                                  // an HTTPException
    | Done(message: string)                                              // {"status": "success", "message": ...}
    | Matched(nim: string, name: string, confidence: real, distance: real) // {"status": "success", "data": {...}}
    | NotDone(status: string, message: string)                           // {"status": "failed" | "error", "message": ...}

  datatype EmbeddingRow = EmbeddingRow(nim: string, vector: Vector)
  datatype LogRow = LogRow(nim: string, name: string, model: string, confidence: real, distance: real)

  /** A row of `users JOIN embeddings`. */
  datatype MatchRow = MatchRow(nim: string, name: string, vector: Vector)

  /** `min_distance`'s starting bound and the acceptance threshold. */
  const StartBound: real := 100.0
  const Threshold: real := 0.30
  /** The model name `/verify` records, whatever the request asked for. */
  const RecordedModel: string := "Facenet512"

  /** `base64_to_cv2`. */
  function ToImage(s: string, o: Oracle): (img: Option<Image>)
    ensures Comma !in s ==> img == o.decode(s)
    ensures Comma in s ==> img == o.decode(Before(s[|Before(s, Comma)| + 1..], Comma))
  {
    PayloadIsSecondField(s);
    o.decode(Payload(s))
  }

  /** The embedding one posted image contributes: none when it does not
      decode, when the model raises, or when it finds no face; otherwise the
      first face's. */
  function EmbeddingOf(s: string, o: Oracle): (v: Option<Vector>)
    ensures v.Some? <==>
      ToImage(s, o).Some? && o.represent(ToImage(s, o).value).Faces? &&
      |o.represent(ToImage(s, o).value).embeddings| > 0
    ensures v.Some? ==> v.value == o.represent(ToImage(s, o).value).embeddings[0]
  {
    match ToImage(s, o)
    case None => None
    case Some(img) =>
      match o.represent(img)
      case Raises => None
      case Faces(results) => if |results| > 0 then Some(results[0]) else None
  }

  /** The embeddings a list of posted images yields, in the images' order. */
  function Collected(images: seq<string>, o: Oracle): (vecs: seq<Vector>)
    ensures |vecs| <= |images|
    ensures images == [] ==> vecs == []
    decreases |images|
  {
    if images == [] then []
    else
      var head := EmbeddingOf(images[0], o);
      (if head.Some? then [head.value] else []) + Collected(images[1..], o)
  }

  lemma {:induction false} CollectedSnoc(images: seq<string>, x: string, o: Oracle)
    ensures Collected(images + [x], o) ==
      Collected(images, o) + (if EmbeddingOf(x, o).Some? then [EmbeddingOf(x, o).value] else [])
    decreases |images|
  {
    if images != [] {
      assert (images + [x])[1..] == images[1..] + [x];
      CollectedSnoc(images[1..], x, o);
    }
  }

  /** At most one embedding per image, and none exactly when no image
      contributes one. */
  lemma {:induction false} CollectedBounds(images: seq<string>, o: Oracle)
    ensures |Collected(images, o)| <= |images|
    ensures Collected(images, o) == [] <==> forall i :: 0 <= i < |images| ==> EmbeddingOf(images[i], o).None?
    decreases |images|
  {
    if images != [] {
      CollectedBounds(images[1..], o);
      assert forall i :: 1 <= i < |images| ==> images[i] == images[1..][i - 1];
    }
  }

  /** When every image contributes, the embeddings are the images' own, one
      for one, in order. */
  lemma {:induction false} CollectedAll(images: seq<string>, o: Oracle)
    requires forall i :: 0 <= i < |images| ==> EmbeddingOf(images[i], o).Some?
    ensures |Collected(images, o)| == |images|
    ensures forall i :: 0 <= i < |images| ==> Collected(images, o)[i] == EmbeddingOf(images[i], o).value
    decreases |images|
  {
    if images != [] {
      assert forall i :: 1 <= i < |images| ==> images[i] == images[1..][i - 1];
      CollectedAll(images[1..], o);
    }
  }

  /** The loop that builds `new_embeddings`, skipping images that do not
      decode, that make the model raise, or that have no face. */
  method CollectEmbeddings(images: seq<string>, o: Oracle) returns (vecs: seq<Vector>)
    ensures vecs == Collected(images, o)
  {
    vecs := [];
    var i := 0;
    while i < |images|
      invariant 0 <= i <= |images|
      invariant vecs == Collected(images[..i], o)
    {
      var img := ToImage(images[i], o);
      if img.Some? {
        match o.represent(img.value) {
          case Raises =>
          case Faces(results) =>
            if |results| > 0 {
              vecs := vecs + [results[0]];
            }
        }
      }
      CollectedSnoc(images[..i], images[i], o);
      assert images[..i + 1] == images[..i] + [images[i]];
      i := i + 1;
    }
    assert images[..|images|] == images;
  }

  /** The embedding rows inserted for `nim`, one per vector, in order. */
  function Rows(nim: string, vecs: seq<Vector>): (rows: seq<EmbeddingRow>)
    ensures |rows| == |vecs|
    ensures forall i :: 0 <= i < |vecs| ==> rows[i] == EmbeddingRow(nim, vecs[i])
  {
    seq(|vecs|, i requires 0 <= i < |vecs| => EmbeddingRow(nim, vecs[i]))
  }

  /** `SELECT u.nim, u.name, e.vector FROM users u JOIN embeddings e ON
      u.nim = e.nim`, one row per embedding, in the embeddings' order. */
  function Joined(users: map<string, string>, embeddings: seq<EmbeddingRow>): (rows: seq<MatchRow>)
    requires forall i :: 0 <= i < |embeddings| ==> embeddings[i].nim in users
    ensures |rows| == |embeddings|
    ensures forall i :: 0 <= i < |rows| ==>
      rows[i].nim == embeddings[i].nim && rows[i].vector == embeddings[i].vector &&
      users[rows[i].nim] == rows[i].name
  {
    seq(|embeddings|, i requires 0 <= i < |embeddings| =>
      MatchRow(embeddings[i].nim, users[embeddings[i].nim], embeddings[i].vector))
  }

  /** The loop of `/verify` over the joined rows: `min_distance` starts at
      100.0 and only a strictly smaller distance replaces the best match, so
      the result is the first row at the least distance, if any row is under
      the starting bound. */
  method BestMatch(rows: seq<MatchRow>, target: Vector, distance: (Vector, Vector) -> real)
    returns (minDistance: real, best: Option<nat>)
    ensures minDistance <= StartBound
    ensures forall i :: 0 <= i < |rows| ==> minDistance <= distance(rows[i].vector, target)
    ensures best.None? ==> minDistance == StartBound
    ensures best.None? <==> forall i :: 0 <= i < |rows| ==> distance(rows[i].vector, target) >= StartBound
    ensures best.Some? ==>
      && best.value < |rows|
      && distance(rows[best.value].vector, target) == minDistance
      && forall j :: 0 <= j < best.value ==> distance(rows[j].vector, target) > minDistance
  {
    minDistance, best := StartBound, None;
    for i := 0 to |rows|
      invariant minDistance <= StartBound
      invariant forall k :: 0 <= k < i ==> minDistance <= distance(rows[k].vector, target)
      invariant best.None? ==> minDistance == StartBound
      invariant best.None? <==> forall k :: 0 <= k < i ==> distance(rows[k].vector, target) >= StartBound
      invariant best.Some? ==>
        && best.value < i
        && distance(rows[best.value].vector, target) == minDistance
        && forall j :: 0 <= j < best.value ==> distance(rows[j].vector, target) > minDistance
    {
      var dist := distance(rows[i].vector, target);
      if dist < minDistance {
        minDistance := dist;
        best := Some(i);
      }
    }
  }

  /** The confidence reported for an accepted distance, before it is
      formatted as a percentage. */
  function Confidence(d: real): (c: real)
    ensures c >= 0.0
    ensures d <= Threshold ==> c == (1.0 - d / Threshold) * 100.0
    ensures 0.0 <= d ==> c <= 100.0
  {
    var raw := (1.0 - d / Threshold) * 100.0;
    if 0.0 > raw then 0.0 else raw
  }

  /** A smaller accepted distance never gives a smaller confidence, and a
      perfect match gives 100. */
  lemma ConfidenceDecreases(d1: real, d2: real)
    requires d1 <= d2
    ensures Confidence(d1) >= Confidence(d2)
    ensures Confidence(0.0) == 100.0
  {
  }

  /** The success message of `/upload-dataset`. */
  function AddedMessage(count: nat): (m: string)
    ensures |m| > 13 && m[..6] == "Added " && m[|m| - 7..] == " photos"
    ensures IsDigits(m[6..|m| - 7])
  {
    "Added " + Decimal(count) + " photos"
  }

  /** The upload message reports the number of embeddings stored. */
  lemma AddedMessageReportsCount(count: nat)
    ensures var m := AddedMessage(count);
      |m| > 13 && m[..6] == "Added " && m[|m| - 7..] == " photos" &&
      IsDigits(m[6..|m| - 7]) && Parse(m[6..|m| - 7]) == count
  {
    var m := AddedMessage(count);
    assert m[6..|m| - 7] == Decimal(count);
    ParseDecimal(count);
  }

  /** The database: `users` (nim to name), `embeddings` and `logs`, each
      table's rows in insertion order. */
  class Store {
    var users: map<string, string>
    var embeddings: seq<EmbeddingRow>
    var logs: seq<LogRow>

    /** `embeddings.nim REFERENCES users(nim)`. */
    ghost predicate Valid(): (b: bool)
      reads this
      ensures b ==> forall r :: r in embeddings ==> r.nim in users
    {
      forall i :: 0 <= i < |embeddings| ==> embeddings[i].nim in users
    }

    constructor ()
      ensures Valid() && users == map[] && embeddings == [] && logs == []
    {
      users, embeddings, logs := map[], [], [];
    }

    /** The insert loop shared by both enrollment endpoints. */
    method InsertEmbeddings(nim: string, vecs: seq<Vector>)
      requires Valid() && nim in users
      modifies this`embeddings
      ensures Valid()
      ensures embeddings == old(embeddings) + Rows(nim, vecs)
    {
      for k := 0 to |vecs|
        invariant Valid()
        invariant embeddings == old(embeddings) + Rows(nim, vecs[..k])
      {
        assert Rows(nim, vecs[..k + 1]) == Rows(nim, vecs[..k]) + [EmbeddingRow(nim, vecs[k])];
        embeddings := embeddings + [EmbeddingRow(nim, vecs[k])];
      }
      assert vecs[..|vecs|] == vecs;
    }

    /** `/register`: the three input guards, the embedding loop, then the
        upsert of the user and one embedding row per collected vector. */
    method Register(nim: string, name: string, images: seq<string>, o: Oracle, db: Db)
      returns (reply: Reply)
      requires Valid()
      modifies this
      ensures Valid() && logs == old(logs)
      ensures nim == "" || name == "" || images == [] ==>
        reply == Raised(400, "Missing data") && unchanged(this)
      ensures nim != "" && name != "" && images != [] ==>
        var vecs := Collected(images, o);
        && (vecs == [] ==> reply == Raised(400, "No faces detected") && unchanged(this))
        && (vecs != [] && db.Fails? ==> reply == Raised(500, db.error) && unchanged(this))
        && (vecs != [] && db.Available? ==>
              && reply == Done("Registered " + name)
              && users == old(users)[nim := name]
              && embeddings == old(embeddings) + Rows(nim, vecs))
    {
      if nim == "" || name == "" || images == [] {
        return Raised(400, "Missing data");
      }
      var vecs := CollectEmbeddings(images, o);
      if vecs == [] {
        return Raised(400, "No faces detected");
      }
      if db.Fails? {
        return Raised(500, db.error);
      }
      users := users[nim := name];
      InsertEmbeddings(nim, vecs);
      reply := Done("Registered " + name);
    }

    /** `/upload-dataset`: the two input guards, the embedding loop, the
        lookup of the user (after the loop, so a request without faces is
        refused before an unknown NIM is noticed), then one embedding row per
        collected vector. */
    method UploadDataset(nim: string, images: seq<string>, o: Oracle, db: Db)
      returns (reply: Reply)
      requires Valid()
      modifies this
      ensures Valid() && users == old(users) && logs == old(logs)
      ensures nim == "" || images == [] ==>
        reply == Raised(400, "Missing data") && unchanged(this)
      ensures nim != "" && images != [] ==>
        var vecs := Collected(images, o);
        && (vecs == [] ==> reply == Raised(400, "No faces detected") && unchanged(this))
        && (vecs != [] && db.Fails? ==> reply == Raised(500, db.error) && unchanged(this))
        && (vecs != [] && db.Available? && nim !in users ==>
              reply == Raised(404, "User not found") && unchanged(this))
        && (vecs != [] && db.Available? && nim in users ==>
              && reply == Done(AddedMessage(|vecs|))
              && embeddings == old(embeddings) + Rows(nim, vecs))
    {
      if nim == "" || images == [] {
        return Raised(400, "Missing data");
      }
      var vecs := CollectEmbeddings(images, o);
      if vecs == [] {
        return Raised(400, "No faces detected");
      }
      if db.Fails? {
        return Raised(500, db.error);
      }
      if nim !in users {
        return Raised(404, "User not found");
      }
      InsertEmbeddings(nim, vecs);
      reply := Done(AddedMessage(|vecs|));
    }

    /** `/verify`. The requested model is accepted and ignored: the embedding
        is always Facenet512 and the log row always says so. */
    method Verify(image: string, model: string, o: Oracle, db: Db) returns (reply: Reply)
      requires Valid()
      modifies this`logs
      ensures Valid() && users == old(users) && embeddings == old(embeddings)
      ensures ToImage(image, o).None? ==> reply == Raised(400, "Invalid image")
      ensures ToImage(image, o).Some? && EmbeddingOf(image, o).None? ==>
        reply == NotDone("failed", "No face detected")
      ensures EmbeddingOf(image, o).Some? && db.Fails? ==>
        reply == NotDone("error", "DB Error: " + db.error)
      ensures EmbeddingOf(image, o).Some? && db.Available? ==>
        var target := EmbeddingOf(image, o).value;
        var rows := Joined(users, embeddings);
        && (reply.Matched? <==> exists i :: 0 <= i < |rows| && o.distance(rows[i].vector, target) <= Threshold)
        && (!reply.Matched? ==> reply == NotDone("failed", "Face not recognized"))
        && (reply.Matched? ==>
              && reply.distance <= Threshold
              && reply.confidence == Confidence(reply.distance)
              && reply.nim in users && users[reply.nim] == reply.name
              && (forall i :: 0 <= i < |rows| ==> reply.distance <= o.distance(rows[i].vector, target))
              && exists i :: 0 <= i < |rows| && rows[i].nim == reply.nim &&
                   o.distance(rows[i].vector, target) == reply.distance &&
                   forall j :: 0 <= j < i ==> o.distance(rows[j].vector, target) > reply.distance)
      ensures reply.Matched? ==>
        logs == old(logs) + [LogRow(reply.nim, reply.name, RecordedModel, reply.confidence, reply.distance)]
      ensures !reply.Matched? ==> logs == old(logs)
    {
      var img := ToImage(image, o);
      if img.None? {
        return Raised(400, "Invalid image");
      }
      var target: Vector;
      match o.represent(img.value) {
        case Raises =>
          return NotDone("failed", "No face detected");
        case Faces(results) =>
          if |results| == 0 {
            // `[0]` of an empty result list raises inside the same `try`
            return NotDone("failed", "No face detected");
          }
          target := results[0];
      }
      if db.Fails? {
        return NotDone("error", "DB Error: " + db.error);
      }
      var rows := Joined(users, embeddings);
      var minDistance, best := BestMatch(rows, target, o.distance);
      if minDistance <= Threshold {
        var k := best.value;
        var confidence := Confidence(minDistance);
        logs := logs + [LogRow(rows[k].nim, rows[k].name, RecordedModel, confidence, minDistance)];
        reply := Matched(rows[k].nim, rows[k].name, confidence, minDistance);
      } else {
        reply := NotDone("failed", "Face not recognized");
      }
    }
  }
}
