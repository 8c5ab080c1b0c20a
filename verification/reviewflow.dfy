/** The review funnel in the browser (app.js): the state built from the
    tenant configuration, and the page's reactions to the visitor choosing a
    rating, confirming it, sending feedback and coming back from Google.

    A page is a pure value: the application state, the set of visible
    sections, the two inline error texts, localStorage, the address the tab
    navigated to, and the feedback payloads handed to the sheet endpoint.
    The clock and Math.random are event parameters: each event that may
    make a discount code carries the expiry date and the random letters. */
module ReviewFlow {
  import opened Text
  import opened Js
  import Uri
  import Tenant
  import opened Discount

  /** A date that JavaScript's Date can report. */
  type Day = d: Date | ValidDate(d) witness Date(1, 1, 2000)

  /** sanitizeString: strings are trimmed, every other value becomes "". */
  function Sanitize(v: Value): string
  {
    if v.Str? then Trim(v.s) else ""
  }

  const DefaultBusinessName := "Wir sch\U{00E4}tzen Ihr Feedback"
  const DefaultReviewBase := "https://search.google.com/local/writereview?placeid="
  const WaitingKey := "reviewToolWaitingReturn"
  const RatingKey := "reviewToolRating"

  const NoRatingMessage := "Please select a star rating to continue."
  const MissingLinkMessage := "Google review link missing. Add googlePlaceId or googleReviewUrl to config.js."
  const PickRatingMessage := "Please pick a rating from 1 to 4 stars first."
  const NoFeedbackMessage := "Please share your feedback before submitting."

  datatype State = State(
    businessName: string,
    businessCategory: string,
    mapsUrl: string,
    placeId: string,
    googleReviewBaseUrl: string,
    googleReviewUrl: string,
    sheetScriptUrl: string,
    reviewThreshold: real,
    discountEnabled: bool,
    discountPercentage: real,
    discountValidDays: real,
    selectedRating: Option<nat>,
    currentDiscountCode: Option<string>,
    waitingForGoogleReturn: bool,
    userComments: Option<string>,
    userName: Option<string>)

  /** The review URL rule of initializeState: a configured URL is kept,
      otherwise one is built from the base and the encoded place id, when
      there is a place id. */
  function ReviewUrl(configured: string, base: string, placeId: string): (url: string)
    ensures configured != "" ==> url == configured
    ensures configured == "" && placeId == "" ==> url == ""
    ensures configured == "" && placeId != "" ==>
              StartsWith(url, base) && Uri.UriSafe(url[|base|..])
              && Uri.DecodeToBytes(url[|base|..]) == Some(Uri.Utf8String(placeId))
  {
    if configured == "" && placeId != "" then
      var url := base + Uri.EncodeURIComponent(placeId);
      assert url[..|base|] == base && url[|base|..] == Uri.EncodeURIComponent(placeId);
      Uri.EncodeDecodesToUtf8(placeId);
      url
    else configured
  }

  /** x is what `Number(v) || d` yields: v's number when it is a number
      other than zero, d when v reads as NaN or as zero. */
  predicate NumberOrDefault(x: real, v: Value, parse: string -> Option<real>, d: real)
  {
    match ToNumber(v, parse)
    case Some(n) => if n == 0.0 then x == d else x == n
    case None => x == d
  }

  /** initializeState. `config` is window.REVIEW_TOOL_CONFIG. */
  function InitialState(config: Value, parse: string -> Option<real>): (st: State)
    ensures st.businessName != ""
    ensures Sanitize(Prop(config, "businessName")) != "" ==>
              st.businessName == Sanitize(Prop(config, "businessName"))
    ensures Sanitize(Prop(config, "businessName")) == "" ==> st.businessName == DefaultBusinessName
    ensures st.businessCategory == Sanitize(Prop(config, "businessCategory"))
    ensures st.mapsUrl == Sanitize(Prop(config, "googleMapsUrl"))
    ensures Sanitize(Prop(config, "googleReviewBaseUrl")) != "" ==>
              st.googleReviewBaseUrl == Sanitize(Prop(config, "googleReviewBaseUrl"))
    ensures Sanitize(Prop(config, "googleReviewBaseUrl")) == "" ==> st.googleReviewBaseUrl == DefaultReviewBase
    ensures NumberOrDefault(st.reviewThreshold, Prop(config, "reviewThreshold"), parse, 5.0)
    ensures NumberOrDefault(st.discountPercentage, Prop(Prop(config, "discount"), "percentage"), parse, 10.0)
    ensures NumberOrDefault(st.discountValidDays, Prop(Prop(config, "discount"), "validDays"), parse, 30.0)
    ensures st.reviewThreshold != 0.0 && st.discountPercentage != 0.0 && st.discountValidDays != 0.0
    ensures st.discountEnabled <==> Prop(Prop(config, "discount"), "enabled") != Bool(false)
    ensures st.googleReviewUrl == ReviewUrl(Sanitize(Prop(config, "googleReviewUrl")),
                                            st.googleReviewBaseUrl, st.placeId)
    ensures st.placeId == Sanitize(Prop(config, "googlePlaceId"))
    ensures st.sheetScriptUrl == Sanitize(Prop(config, "sheetScriptUrl"))
    ensures st.selectedRating.None? && st.currentDiscountCode.None? && !st.waitingForGoogleReturn
    ensures st.userComments.None? && st.userName.None?
  {
    var cfg := Or(config, Obj(map[]));
    var discount := Prop(cfg, "discount");
    var base := OrStr(Sanitize(Prop(cfg, "googleReviewBaseUrl")), DefaultReviewBase);
    var placeId := Sanitize(Prop(cfg, "googlePlaceId"));
    State(
      businessName := OrStr(Sanitize(Prop(cfg, "businessName")), DefaultBusinessName),
      businessCategory := Sanitize(Prop(cfg, "businessCategory")),
      mapsUrl := Sanitize(Prop(cfg, "googleMapsUrl")),
      placeId := placeId,
      googleReviewBaseUrl := base,
      googleReviewUrl := ReviewUrl(Sanitize(Prop(cfg, "googleReviewUrl")), base, placeId),
      sheetScriptUrl := Sanitize(Prop(cfg, "sheetScriptUrl")),
      reviewThreshold := NumberOr(Prop(cfg, "reviewThreshold"), parse, 5.0),
      discountEnabled := Prop(discount, "enabled") != Bool(false),
      discountPercentage := NumberOr(Prop(discount, "percentage"), parse, 10.0),
      discountValidDays := NumberOr(Prop(discount, "validDays"), parse, 30.0),
      selectedRating := None,
      currentDiscountCode := None,
      waitingForGoogleReturn := false,
      userComments := None,
      userName := None)
  }

  /** The state a page without any configuration starts from. */
  const UnconfiguredState := State(
    DefaultBusinessName, "", "", "", DefaultReviewBase, "", "",
    5.0, true, 10.0, 30.0, None, None, false, None, None)

  /** Without a configuration object every field takes its default: a
      threshold of 5, discounts on at 10% for 30 days, no review link. */
  lemma MissingConfigDefaults(parse: string -> Option<real>)
    ensures InitialState(Undefined, parse) == UnconfiguredState
  {
    assert DefaultBusinessName != "";
    assert DefaultReviewBase != "";
  }

  datatype Section =
    | RatingStep
    | MainHeader
    | FollowupSection
    | ThankYouSection
    | GoogleForwardSection
    | AutoOpenNote
    | DiscountSection
    | ShareLoveSection

  /** The feedback payload posted to the sheet endpoint (the submission time
      and the formatted expiry date are left out). */
  datatype Payload = Payload(
    businessName: string,
    businessCategory: string,
    mapUrl: string,
    placeId: string,
    rating: nat,
    name: string,
    comments: string,
    discountCode: string,
    discountPercentage: Value,
    discountValidDays: Value,
    slug: string)

  datatype Page = Page(
    state: State,
    shown: set<Section>,
    errorText: string,
    ratingErrorText: string,
    storage: map<string, string>,
    location: Option<string>,
    sent: seq<Payload>,
    slug: string)

  /** The invariant the return detection relies on: while the page waits
      for the visitor to come back, localStorage says so. */
  predicate WaitingRecorded(p: Page)
  {
    p.state.waitingForGoogleReturn ==> WaitingKey in p.storage && p.storage[WaitingKey] == "true"
  }

  function ClearErrors(p: Page): Page
  {
    p.(errorText := "", ratingErrorText := "")
  }

  /** resetView */
  function ResetView(p: Page): Page
  {
    ClearErrors(p).(shown := p.shown - {FollowupSection, ThankYouSection, GoogleForwardSection, AutoOpenNote})
  }

  /** hideRatingStep */
  function HideRatingStep(p: Page): Page
  {
    p.(shown := p.shown - {RatingStep, MainHeader})
  }

  /** What localStorage.setItem stores for the selected rating. */
  function RatingText(r: Option<nat>): string
  {
    if r.Some? then NatToString(r.value) else "null"
  }

  /** openReviewLink */
  function OpenReviewLink(p: Page): (q: Page)
    ensures p.state.googleReviewUrl == "" ==> q == p.(errorText := MissingLinkMessage)
    ensures p.state.googleReviewUrl != "" ==>
              && q.state == p.state.(waitingForGoogleReturn := true)
              && q.storage == p.storage[WaitingKey := "true"][RatingKey := RatingText(p.state.selectedRating)]
              && q.location == Some(p.state.googleReviewUrl)
              && q.shown == p.shown && q.sent == p.sent
    ensures WaitingRecorded(p) ==> WaitingRecorded(q)
  {
    if p.state.googleReviewUrl == "" then p.(errorText := MissingLinkMessage)
    else
      p.(state := p.state.(waitingForGoogleReturn := true),
         storage := p.storage[WaitingKey := "true"][RatingKey := RatingText(p.state.selectedRating)],
         location := Some(p.state.googleReviewUrl))
  }

  /** The name showThankYouPage makes the code from: `state.userName || ""`. */
  function NameForCode(st: State): string
  {
    if st.userName.Some? then st.userName.value else ""
  }

  /** showThankYouPage as written: with discounts on it makes a fresh code
      from the stored name and new random letters, and then stops at the
      read of the undeclared `config` (so the share section keeps its
      visibility); with discounts off it hides both discount sections. */
  function ShowThankYouAsWritten(p: Page, expiry: Day, randomPart: string): (q: Page)
    ensures ThankYouSection in q.shown && RatingStep !in q.shown && GoogleForwardSection !in q.shown
    ensures q.errorText == "" && q.ratingErrorText == ""
    ensures q.state.discountEnabled == p.state.discountEnabled
    ensures p.state.discountEnabled ==>
              q.state == p.state.(currentDiscountCode := Some(DiscountCode(NameForCode(p.state), randomPart, expiry)))
    ensures !p.state.discountEnabled ==> q.state == p.state && DiscountSection !in q.shown
    ensures q.storage == p.storage && q.sent == p.sent && q.location == p.location
  {
    var q := HideRatingStep(ResetView(p));
    var q := q.(shown := q.shown + {ThankYouSection});
    if q.state.discountEnabled then
      var code := DiscountCode(NameForCode(q.state), randomPart, expiry);
      q.(shown := q.shown + {DiscountSection}, state := q.state.(currentDiscountCode := Some(code)))
    else
      ClearErrors(q.(shown := q.shown - {DiscountSection, ShareLoveSection}))
  }

  /** showThankYouPage keeping a code that was already issued: the code the
      visitor sees is the one recorded with the feedback. */
  function ShowThankYou(p: Page, expiry: Day, randomPart: string): (q: Page)
    ensures ThankYouSection in q.shown && RatingStep !in q.shown && GoogleForwardSection !in q.shown
    ensures q.errorText == "" && q.ratingErrorText == ""
    ensures p.state.discountEnabled && p.state.currentDiscountCode.Some? ==> q.state == p.state
    ensures p.state.discountEnabled && p.state.currentDiscountCode.None? ==>
              q.state == p.state.(currentDiscountCode := Some(DiscountCode(NameForCode(p.state), randomPart, expiry)))
    ensures !p.state.discountEnabled ==> q.state == p.state && DiscountSection !in q.shown
    ensures q.storage == p.storage && q.sent == p.sent && q.location == p.location
  {
    if p.state.discountEnabled && p.state.currentDiscountCode.Some? then
      var q := HideRatingStep(ResetView(p));
      q.(shown := q.shown + {ThankYouSection, DiscountSection})
    else ShowThankYouAsWritten(p, expiry, randomPart)
  }

  /** The rating guard of handleFeedbackSubmit: a rating must be chosen and
      be below 5, whatever the configured threshold. */
  predicate FeedbackRatingOk(r: Option<nat>)
  {
    r.Some? && 0 < r.value < 5
  }

  /** The sheet endpoint is called only with a configured URL that is not
      the placeholder. */
  predicate SheetUrlUsable(url: string)
  {
    url != "" && !Contains(url, "YOUR_SCRIPT_ID")
  }

  /** The accepted part of handleFeedbackSubmit, up to the thank-you page:
      the state records the feedback and, with discounts on, a code made
      from the name; the payload is posted when the sheet URL is usable. */
  function RecordFeedback(p: Page, comments: string, name: string, expiry: Day, randomPart: string): (q: Page)
    requires FeedbackRatingOk(p.state.selectedRating)
    ensures q.state.userComments == Some(comments) && q.state.userName == Some(name)
    ensures p.state.discountEnabled ==> q.state.currentDiscountCode == Some(DiscountCode(name, randomPart, expiry))
    ensures !p.state.discountEnabled ==> q.state.currentDiscountCode == p.state.currentDiscountCode
    ensures q.state.waitingForGoogleReturn == p.state.waitingForGoogleReturn
    ensures q.state.discountEnabled == p.state.discountEnabled
    ensures SheetUrlUsable(p.state.sheetScriptUrl) ==>
              && |q.sent| == |p.sent| + 1 && q.sent[..|p.sent|] == p.sent
              && q.sent[|p.sent|].rating == p.state.selectedRating.value
              && q.sent[|p.sent|].comments == comments && q.sent[|p.sent|].name == name
              && q.sent[|p.sent|].slug == p.slug
              && q.sent[|p.sent|].discountCode == (if p.state.discountEnabled then DiscountCode(name, randomPart, expiry) else "")
              && (p.state.discountEnabled <==> q.sent[|p.sent|].discountPercentage.Num?)
    ensures !SheetUrlUsable(p.state.sheetScriptUrl) ==> q.sent == p.sent
    ensures q.storage == p.storage && q.shown == p.shown
  {
    var st := p.state;
    var code := if st.discountEnabled then DiscountCode(name, randomPart, expiry) else "";
    var payload := Payload(
      st.businessName, st.businessCategory, st.mapsUrl, st.placeId,
      st.selectedRating.value, name, comments, code,
      if st.discountEnabled then Num(st.discountPercentage) else Str(""),
      if st.discountEnabled then Num(st.discountValidDays) else Str(""),
      p.slug);
    var st := st.(userComments := Some(comments), userName := Some(name));
    var st := if st.discountEnabled then st.(currentDiscountCode := Some(code)) else st;
    var sent := if SheetUrlUsable(st.sheetScriptUrl) then p.sent + [payload] else p.sent;
    p.(state := st, sent := sent)
  }

  /** handleFeedbackSubmit, with the thank-you page given as `show`. */
  function SubmitWith(p: Page, commentsField: Value, nameField: Value, expiry: Day,
                      randomPart: string, laterRandomPart: string, keepCode: bool): (q: Page)
    ensures !FeedbackRatingOk(p.state.selectedRating) ==>
              q == ClearErrors(p).(errorText := PickRatingMessage)
    ensures FeedbackRatingOk(p.state.selectedRating) && Sanitize(commentsField) == "" ==>
              q == ClearErrors(p).(errorText := NoFeedbackMessage)
    ensures WaitingRecorded(p) ==> WaitingRecorded(q)
  {
    var p0 := ClearErrors(p);
    if !FeedbackRatingOk(p0.state.selectedRating) then p0.(errorText := PickRatingMessage)
    else
      var comments := Sanitize(commentsField);
      if comments == "" then p0.(errorText := NoFeedbackMessage)
      else
        var r := RecordFeedback(p0, comments, Sanitize(nameField), expiry, randomPart);
        if keepCode then ShowThankYou(r, expiry, laterRandomPart)
        else ShowThankYouAsWritten(r, expiry, laterRandomPart)
  }

  /** The return handler of the visibilitychange and focus listeners, once
      the 500 ms timer has fired; `keepCode` picks the thank-you page as in
      SubmitWith. */
  function ReturnToTab(p: Page, expiry: Day, randomPart: string, keepCode: bool): (q: Page)
    ensures !p.state.waitingForGoogleReturn ==> q == p
    ensures p.state.waitingForGoogleReturn ==>
              && !q.state.waitingForGoogleReturn
              && q.storage == p.storage - {WaitingKey}
              && ThankYouSection in q.shown
    ensures WaitingRecorded(q)
  {
    if p.state.waitingForGoogleReturn then
      var p1 := p.(state := p.state.(waitingForGoogleReturn := false), storage := p.storage - {WaitingKey});
      if keepCode then ShowThankYou(p1, expiry, randomPart) else ShowThankYouAsWritten(p1, expiry, randomPart)
    else p
  }

  /** The condition of checkForGoogleReturn. */
  predicate ReturnPending(storage: map<string, string>)
  {
    && WaitingKey in storage && storage[WaitingKey] == "true"
    && RatingKey in storage && storage[RatingKey] == "5"
  }

  /** Without an issued code the two thank-you pages agree, so page load
      (where no code exists yet) needs no choice between them. */
  lemma ThankYouPagesAgreeWithoutCode(p: Page, expiry: Day, randomPart: string)
    requires p.state.currentDiscountCode.None?
    ensures ShowThankYou(p, expiry, randomPart) == ShowThankYouAsWritten(p, expiry, randomPart)
  {
  }

  /** checkForGoogleReturn, run once when the page loads. */
  function CheckForGoogleReturn(p: Page, expiry: Day, randomPart: string): (q: Page)
    ensures !ReturnPending(p.storage) ==> q == p
    ensures ReturnPending(p.storage) ==>
              && q.storage == p.storage - {WaitingKey, RatingKey}
              && q.state.selectedRating == Some(5)
              && !q.state.waitingForGoogleReturn
              && ThankYouSection in q.shown
    ensures WaitingRecorded(p) ==> WaitingRecorded(q)
  {
    if ReturnPending(p.storage) then
      var p1 := p.(storage := p.storage - {WaitingKey, RatingKey},
                   state := p.state.(selectedRating := Some(5), waitingForGoogleReturn := false));
      ShowThankYou(p1, expiry, randomPart)
    else p
  }

  /** Page load: initializeState, then checkForGoogleReturn. `shown` is the
      markup's initial visibility; `biz` and `host` give the tenant slug. */
  function Load(config: Value, parse: string -> Option<real>, storage: map<string, string>,
                shown: set<Section>, biz: string, host: string, expiry: Day, randomPart: string): (p: Page)
    ensures WaitingRecorded(p)
    ensures p.slug == Tenant.ResolveSlug(biz, host)
    ensures !ReturnPending(storage) ==> p.storage == storage && p.state == InitialState(config, parse)
    ensures ReturnPending(storage) ==> p.storage == storage - {WaitingKey, RatingKey}
  {
    var p := Page(InitialState(config, parse), shown, "", "", storage, None, [], Tenant.ResolveSlug(biz, host));
    CheckForGoogleReturn(p, expiry, randomPart)
  }

  datatype Event =
    | ChooseRating(stars: nat)
    | Confirm
    | SubmitFeedback(comments: Value, name: Value, expiry: Day, randomPart: string, laterRandomPart: string)
    | VisibilityChange(hidden: bool, expiry: Day, randomPart: string)
    | Focus(expiry: Day, randomPart: string)

  /** The rating inputs' change listener. */
  function ChooseRatingStep(p: Page, stars: nat): (q: Page)
    ensures q.state == p.state.(selectedRating := Some(stars))
    ensures q.storage == p.storage && q.errorText == "" && q.ratingErrorText == ""
  {
    ResetView(p.(state := p.state.(selectedRating := Some(stars)))).(ratingErrorText := "")
  }

  /** The confirm button: no rating keeps the page and shows an error; a
      rating at or above the threshold hides the rating step, shows the
      forwarding note and opens the review link; a lower one shows the
      feedback form. */
  function ConfirmStep(p: Page): (q: Page)
    ensures !RatingChosen(p) ==> q == p.(ratingErrorText := NoRatingMessage)
    ensures RatingChosen(p) && AtThreshold(p) ==>
              GoogleForwardSection in q.shown && RatingStep !in q.shown && FollowupSection !in q.shown
    ensures RatingChosen(p) && AtThreshold(p) && p.state.googleReviewUrl != "" ==>
              && q.state == p.state.(waitingForGoogleReturn := true)
              && q.storage == p.storage[WaitingKey := "true"][RatingKey := NatToString(p.state.selectedRating.value)]
              && q.location == Some(p.state.googleReviewUrl)
    ensures RatingChosen(p) && AtThreshold(p) && p.state.googleReviewUrl == "" ==>
              && q.state == p.state && q.storage == p.storage && q.location == p.location
              && q.errorText == MissingLinkMessage
    ensures RatingChosen(p) && !AtThreshold(p) ==>
              FollowupSection in q.shown && RatingStep !in q.shown && GoogleForwardSection !in q.shown
              && q.state == p.state && q.storage == p.storage
    ensures WaitingRecorded(p) ==> WaitingRecorded(q)
  {
    if !RatingChosen(p) then p.(ratingErrorText := NoRatingMessage)
    else
      var q := ResetView(p);
      if AtThreshold(p) then
        var q := HideRatingStep(q);
        var q := q.(shown := q.shown - {FollowupSection, ThankYouSection} + {GoogleForwardSection});
        OpenReviewLink(q)
      else
        q.(shown := q.shown - {RatingStep} + {FollowupSection})
  }

  /** `state.selectedRating` is truthy. */
  predicate RatingChosen(p: Page)
  {
    p.state.selectedRating.Some? && p.state.selectedRating.value != 0
  }

  predicate AtThreshold(p: Page)
    requires RatingChosen(p)
  {
    p.state.selectedRating.value as real >= p.state.reviewThreshold
  }

  /** One event on the page. With `keepCode` false the thank-you page is
      app.js as written; with it true an issued code is kept. */
  function Step(p: Page, e: Event, keepCode: bool): Page
  {
    match e
    case ChooseRating(stars) => ChooseRatingStep(p, stars)
    case Confirm => ConfirmStep(p)
    case SubmitFeedback(comments, name, expiry, r1, r2) => SubmitWith(p, comments, name, expiry, r1, r2, keepCode)
    case VisibilityChange(hidden, expiry, r) => if hidden then p else ReturnToTab(p, expiry, r, keepCode)
    case Focus(expiry, r) => ReturnToTab(p, expiry, r, keepCode)
  }

  function Run(p: Page, events: seq<Event>, keepCode: bool): Page
    decreases |events|
  {
    if |events| == 0 then p else Run(Step(p, events[0], keepCode), events[1..], keepCode)
  }

  /** Every event keeps localStorage in step with the waiting flag. */
  lemma StepKeepsWaitingRecorded(p: Page, e: Event, keepCode: bool)
    requires WaitingRecorded(p)
    ensures WaitingRecorded(Step(p, e, keepCode))
  {
  }

  lemma {:induction false} RunKeepsWaitingRecorded(p: Page, events: seq<Event>, keepCode: bool)
    requires WaitingRecorded(p)
    ensures WaitingRecorded(Run(p, events, keepCode))
    decreases |events|
  {
    if |events| > 0 {
      StepKeepsWaitingRecorded(p, events[0], keepCode);
      RunKeepsWaitingRecorded(Step(p, events[0], keepCode), events[1..], keepCode);
    }
  }

  /** Any sequence of events after page load: localStorage records the
      wait whenever the page is waiting. */
  lemma LoadedRunsKeepWaitingRecorded(config: Value, parse: string -> Option<real>, storage: map<string, string>,
                                      shown: set<Section>, biz: string, host: string, expiry: Day,
                                      randomPart: string, events: seq<Event>, keepCode: bool)
    ensures WaitingRecorded(Run(Load(config, parse, storage, shown, biz, host, expiry, randomPart), events, keepCode))
  {
    RunKeepsWaitingRecorded(Load(config, parse, storage, shown, biz, host, expiry, randomPart), events, keepCode);
  }

  /** A configured threshold above 5 sends a five-star rating to the
      feedback form, whose submit then refuses every five-star rating: the
      visitor can neither review on Google nor leave feedback. */
  lemma FiveStarsBelowThresholdDeadEnd(p: Page, comments: Value, name: Value, expiry: Day, r1: string, r2: string,
                                       keepCode: bool)
    requires p.state.selectedRating == Some(5) && p.state.reviewThreshold > 5.0
    ensures var q := Step(p, Confirm, keepCode);
            && FollowupSection in q.shown && GoogleForwardSection !in q.shown
            && Step(q, SubmitFeedback(comments, name, expiry, r1, r2), keepCode) == ClearErrors(q).(errorText := PickRatingMessage)
  {
  }

  lemma FourIsNotFive()
    ensures NatToString(4) == "4" && NatToString(5) == "5" && "4" != "5"
  {
  }

  /** Only a five-star return is detected on reload: after a four-star
      visitor is forwarded (threshold 4 or lower) the stored rating is "4",
      so the next load ignores the return and the waiting key stays. */
  lemma FourStarReturnNotDetected(p: Page)
    requires p.state.selectedRating == Some(4) && p.state.reviewThreshold <= 4.0
    requires p.state.googleReviewUrl != ""
    ensures var q := ConfirmStep(p);
            && q.storage[WaitingKey] == "true"
            && !ReturnPending(q.storage)
  {
    FourIsNotFive();
  }

  /** A five-star visitor forwarded to Google is detected when the page
      loads again. */
  lemma FiveStarReturnDetected(p: Page)
    requires p.state.selectedRating == Some(5) && p.state.reviewThreshold <= 5.0
    requires p.state.googleReviewUrl != ""
    ensures ReturnPending(ConfirmStep(p).storage)
  {
    FourIsNotFive();
  }

  /** Equal suffixes: the prefixes decide equality. */
  lemma SameSuffix(a: string, b: string, d: string)
    requires a + d == b + d
    ensures a == b
  {
    assert |a| == |b|;
    assert a == (a + d)[..|a|];
    assert b == (b + d)[..|b|];
  }

  /** As written, feedback without a name sends one random code to the
      sheet and shows the visitor another (the thank-you page draws new
      random letters). */
  lemma AnonymousCodesDiffer(p: Page, comments: Value, name: Value, expiry: Day, r1: string, r2: string)
    requires FeedbackRatingOk(p.state.selectedRating) && Sanitize(comments) != ""
    requires Sanitize(name) == "" && p.state.discountEnabled && SheetUrlUsable(p.state.sheetScriptUrl)
    requires r1 != r2
    ensures var q := SubmitWith(p, comments, name, expiry, r1, r2, false);
            && |q.sent| == |p.sent| + 1
            && q.state.currentDiscountCode == Some(r2 + DateCode(expiry))
            && q.sent[|p.sent|].discountCode == r1 + DateCode(expiry)
            && q.sent[|p.sent|].discountCode != q.state.currentDiscountCode.value
  {
    if r1 + DateCode(expiry) == r2 + DateCode(expiry) {
      SameSuffix(r1, r2, DateCode(expiry));
    }
  }

  /** With the code kept, the visitor sees exactly the code recorded in the
      sheet, named or not. */
  lemma FeedbackShowsRecordedCode(p: Page, comments: Value, name: Value, expiry: Day, r1: string, r2: string)
    requires FeedbackRatingOk(p.state.selectedRating) && Sanitize(comments) != ""
    requires p.state.discountEnabled && SheetUrlUsable(p.state.sheetScriptUrl)
    ensures var q := Step(p, SubmitFeedback(comments, name, expiry, r1, r2), true);
            && |q.sent| == |p.sent| + 1
            && q.state.currentDiscountCode == Some(q.sent[|p.sent|].discountCode)
            && ThankYouSection in q.shown
  {
    var r := Recorded(p, comments, name, expiry, r1);
    assert Step(p, SubmitFeedback(comments, name, expiry, r1, r2), true) == ShowThankYou(r, expiry, r2);
    assert r.state.currentDiscountCode == Some(r.sent[|p.sent|].discountCode);
  }

  /** The page once the feedback is recorded, before the thank-you page. */
  function Recorded(p: Page, comments: Value, name: Value, expiry: Day, r1: string): (r: Page)
    requires FeedbackRatingOk(p.state.selectedRating)
    ensures p.state.discountEnabled && SheetUrlUsable(p.state.sheetScriptUrl) ==>
              && |r.sent| == |p.sent| + 1
              && r.state.discountEnabled
              && r.state.userName == Some(Sanitize(name))
              && r.state.currentDiscountCode == Some(r.sent[|p.sent|].discountCode)
              && r.sent[|p.sent|].discountCode == DiscountCode(Sanitize(name), r1, expiry)
  {
    RecordFeedback(ClearErrors(p), Sanitize(comments), Sanitize(name), expiry, r1)
  }

  /** The discrepancy needs an anonymous visitor: with a name, both codes
      are the name code and the date, even as written. */
  lemma NamedCodesAgree(p: Page, comments: Value, name: Value, expiry: Day, r1: string, r2: string)
    requires FeedbackRatingOk(p.state.selectedRating) && Sanitize(comments) != ""
    requires Sanitize(name) != "" && p.state.discountEnabled && SheetUrlUsable(p.state.sheetScriptUrl)
    ensures var q := SubmitWith(p, comments, name, expiry, r1, r2, false);
            q.state.currentDiscountCode == Some(q.sent[|p.sent|].discountCode)
  {
    var r := Recorded(p, comments, name, expiry, r1);
    assert SubmitWith(p, comments, name, expiry, r1, r2, false) == ShowThankYouAsWritten(r, expiry, r2);
    assert NameForCode(r.state) == Sanitize(name);
  }
}
