/** The public review submission endpoint: an ordered validation of the
    posted fields, a lookup of the business by id or by slug, one inserted
    review, and a best-effort copy to the business's sheet endpoint. */
module ReviewSubmit {
  import opened Js
  import opened Text

  /** The columns of a businesses row the endpoint selects. */
  datatype Biz = Biz(id: string, slug: string, config: Value)

  /** A row of the reviews table (the submission time is left out). */
  datatype Review = Review(id: nat, businessId: string, rating: real, name: Value, comments: Value)

  /** The copy posted to the sheet endpoint. */
  datatype Mirror = Mirror(url: string, businessSlug: string, rating: real, name: Value, comments: Value)

  datatype Reply =
    | NotPost          // 405
    | MissingRequired  // 400 'Missing required fields'
    | InvalidRating    // 400 'Invalid rating'
    | NotFound         // 404
    | Failed           // 500
    | Submitted(reviewId: nat)  // 200

  function Status(r: Reply): nat
  {
    match r
    case NotPost => 405
    case MissingRequired => 400
    case InvalidRating => 400
    case NotFound => 404
    case Failed => 500
    case Submitted(_) => 200
  }

  /** What the endpoint leaves behind: the reply, the reviews table, and
      the sheet copy it sends, if any. */
  datatype Result = Result(reply: Reply, reviews: seq<Review>, mirror: Option<Mirror>)

  /** The database side of the endpoint. `bind` is how the driver passes a
      body value as a query parameter (None: the statement fails), and
      `insertFails` says whether the insert throws. */
  datatype Db = Db(store: seq<Biz>, reviews: seq<Review>, newId: nat, bind: Value -> Option<string>, insertFails: bool)

  /** Index of the first row whose id (or slug) equals key, or -1. */
  function FirstMatch(store: seq<Biz>, byId: bool, key: string): (i: int)
    ensures -1 <= i < |store|
    ensures i == -1 <==> forall k :: 0 <= k < |store| ==> (if byId then store[k].id else store[k].slug) != key
    ensures i >= 0 ==> (if byId then store[i].id else store[i].slug) == key
    ensures i >= 0 ==> forall k :: 0 <= k < i ==> (if byId then store[k].id else store[k].slug) != key
  {
    FirstWith(store, (b: Biz) => if byId then b.id else b.slug, key)
  }

  /** The required fields: a slug or an id, a rating, comments. */
  predicate HasRequired(body: Value)
  {
    && (Truthy(Prop(body, "businessSlug")) || Truthy(Prop(body, "businessId")))
    && Truthy(Prop(body, "rating")) && Truthy(Prop(body, "comments"))
  }

  /** `Number(rating)` is a number from 1 to 5; fractions and 5 pass. */
  predicate RatingInRange(rating: Value, parse: string -> Option<real>)
  {
    var n := ToNumber(rating, parse);
    n.Some? && 1.0 <= n.value <= 5.0
  }

  /** The sheet URL: the trimmed `sheet_script_url` when it is a string. */
  function SheetUrl(config: Value): (url: string)
    ensures Prop(config, "sheet_script_url").Str? ==> url == Trim(Prop(config, "sheet_script_url").s)
    ensures !Prop(config, "sheet_script_url").Str? ==> url == ""
  {
    var settings := Or(config, Obj(map[]));
    var v := Prop(settings, "sheet_script_url");
    if v.Str? then Trim(v.s) else ""
  }

  /** The handler. */
  function Submit(httpMethod: string, requestBody: Value, db: Db, parse: string -> Option<real>): (res: Result)
    ensures httpMethod != "POST" ==> res.reply == NotPost
    ensures !res.reply.Submitted? ==> res.reviews == db.reviews && res.mirror.None?
    ensures res.reply.Submitted? ==> res.reply.reviewId == db.newId
    ensures var body := Or(requestBody, Obj(map[]));
            && (httpMethod == "POST" && !HasRequired(body) ==> res.reply == MissingRequired)
            && (httpMethod == "POST" && HasRequired(body) && !RatingInRange(Prop(body, "rating"), parse)
                ==> res.reply == InvalidRating)
            && (res.reply.Submitted? ==>
                  && httpMethod == "POST" && HasRequired(body) && RatingInRange(Prop(body, "rating"), parse)
                  && |res.reviews| == |db.reviews| + 1 && res.reviews[..|db.reviews|] == db.reviews
                  && res.reviews[|db.reviews|].rating == ToNumber(Prop(body, "rating"), parse).value
                  && res.reviews[|db.reviews|].name == Or(Prop(body, "name"), Null)
                  && res.reviews[|db.reviews|].comments == Prop(body, "comments"))
    ensures res.mirror.Some? ==> res.reply.Submitted? && res.mirror.value.url != ""
  {
    if httpMethod != "POST" then Result(NotPost, db.reviews, None)
    else
      var body := Or(requestBody, Obj(map[]));
      if !HasRequired(body) then Result(MissingRequired, db.reviews, None)
      else if !RatingInRange(Prop(body, "rating"), parse) then Result(InvalidRating, db.reviews, None)
      else
        var rating := ToNumber(Prop(body, "rating"), parse).value;
        var byId := Truthy(Prop(body, "businessId"));
        var key := db.bind(if byId then Prop(body, "businessId") else Prop(body, "businessSlug"));
        if key.None? then Result(Failed, db.reviews, None)
        else
          var i := FirstMatch(db.store, byId, key.value);
          if i < 0 then Result(NotFound, db.reviews, None)
          else if db.insertFails then Result(Failed, db.reviews, None)
          else
            var b := db.store[i];
            var review := Review(db.newId, b.id, rating, Or(Prop(body, "name"), Null), Prop(body, "comments"));
            var url := SheetUrl(b.config);
            var mirror := if url != "" then Some(Mirror(url, b.slug, rating, Or(Prop(body, "name"), Str("")), Prop(body, "comments"))) else None;
            Result(Submitted(db.newId), db.reviews + [review], mirror)
  }

  /** A POST that passes both validations. */
  predicate Valid(httpMethod: string, requestBody: Value, parse: string -> Option<real>)
  {
    var body := Or(requestBody, Obj(map[]));
    httpMethod == "POST" && HasRequired(body) && RatingInRange(Prop(body, "rating"), parse)
  }

  /** Whether the lookup goes by id: a truthy id wins over the slug. */
  predicate ById(requestBody: Value)
  {
    Truthy(Prop(Or(requestBody, Obj(map[])), "businessId"))
  }

  /** The lookup key as the driver binds it; None when the statement fails. */
  function Key(requestBody: Value, db: Db): Option<string>
  {
    var body := Or(requestBody, Obj(map[]));
    db.bind(if ById(requestBody) then Prop(body, "businessId") else Prop(body, "businessSlug"))
  }

  /** The column the lookup compares with the key. */
  function Column(b: Biz, byId: bool): string
  {
    if byId then b.id else b.slug
  }

  /** The business a submission is recorded against. */
  function Target(requestBody: Value, db: Db): Option<Biz>
  {
    var key := Key(requestBody, db);
    if key.None? then None
    else
      var i := FirstMatch(db.store, ById(requestBody), key.value);
      if i < 0 then None else Some(db.store[i])
  }

  /** A valid submission whose key binds but names no stored business is
      answered 404, and nothing else is: every other reply has a different
      cause. */
  lemma NotFoundExactly(httpMethod: string, requestBody: Value, db: Db, parse: string -> Option<real>)
    ensures Submit(httpMethod, requestBody, db, parse).reply == NotFound <==>
              && Valid(httpMethod, requestBody, parse) && Key(requestBody, db).Some?
              && forall k :: 0 <= k < |db.store| ==> Column(db.store[k], ById(requestBody)) != Key(requestBody, db).value
  {
  }

  /** A valid submission for a stored business whose insert goes through is
      recorded: the reply carries the new id and the table gains one review
      for that business with the parsed rating. */
  lemma ValidSubmissionRecorded(httpMethod: string, requestBody: Value, db: Db, parse: string -> Option<real>)
    requires Valid(httpMethod, requestBody, parse) && Target(requestBody, db).Some? && !db.insertFails
    ensures var res := Submit(httpMethod, requestBody, db, parse);
            var body := Or(requestBody, Obj(map[]));
            && res.reply == Submitted(db.newId)
            && res.reviews == db.reviews + [Review(db.newId, Target(requestBody, db).value.id,
                                                   ToNumber(Prop(body, "rating"), parse).value,
                                                   Or(Prop(body, "name"), Null), Prop(body, "comments"))]
  {
  }

  /** A rating sent as a one-item array, `[4]`, converts to 4 and is
      recorded like the number itself. */
  lemma BracketedRatingStored(requestBody: Value, db: Db, parse: string -> Option<real>)
    requires requestBody.Obj? && HasRequired(requestBody) && Prop(requestBody, "rating") == Arr([Num(4.0)])
    requires Target(requestBody, db).Some? && !db.insertFails
    ensures var res := Submit("POST", requestBody, db, parse);
            && res.reply == Submitted(db.newId)
            && |res.reviews| == |db.reviews| + 1 && res.reviews[|db.reviews|].rating == 4.0
  {
    assert ToNumber(Arr([Num(4.0)]), parse) == Some(4.0);
    ValidSubmissionRecorded("POST", requestBody, db, parse);
  }

  /** A successful submission inserts exactly one review, for the business
      the request names, and mirrors it exactly when that business has a
      non-blank sheet URL. */
  lemma SubmittedForTarget(httpMethod: string, requestBody: Value, db: Db, parse: string -> Option<real>)
    ensures var res := Submit(httpMethod, requestBody, db, parse);
            res.reply.Submitted? ==>
              && Target(requestBody, db).Some?
              && res.reviews == db.reviews + [res.reviews[|db.reviews|]]
              && res.reviews[|db.reviews|].businessId == Target(requestBody, db).value.id
              && (res.mirror.Some? <==> SheetUrl(Target(requestBody, db).value.config) != "")
  {
  }

  /** An id in the body decides the business: the slug is then never read. */
  lemma IdTakesPrecedence(httpMethod: string, body: Value, slug: Value, db: Db, parse: string -> Option<real>)
    requires body.Obj? && Truthy(Get(body.fields, "businessId"))
    ensures var other := Obj(body.fields["businessSlug" := slug]);
            Submit(httpMethod, other, db, parse) == Submit(httpMethod, body, db, parse)
  {
    var other := Obj(body.fields["businessSlug" := slug]);
    assert Prop(other, "businessId") == Prop(body, "businessId");
    assert Prop(other, "rating") == Prop(body, "rating");
    assert Prop(other, "comments") == Prop(body, "comments");
    assert Prop(other, "name") == Prop(body, "name");
  }

  /** An unknown business or a failed statement records nothing and
      mirrors nothing. */
  lemma NothingRecordedOnError(httpMethod: string, requestBody: Value, db: Db, parse: string -> Option<real>)
    requires Target(requestBody, db).None? || db.insertFails
    ensures var res := Submit(httpMethod, requestBody, db, parse);
            res.reviews == db.reviews && res.mirror.None? && !res.reply.Submitted?
  {
  }
}
