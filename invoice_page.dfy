/** The state and event handlers of the invoice page (`Home`,
    app/page.tsx:10-215): the URL field, the error message, the loading flag
    and the fetched listing, and what submitting, typing and downloading do
    to them. One submission happens at a time; the HTTP exchange and the
    image pipeline are inputs. */
module InvoicePage {
  import opened ListingTypes
  import opened JsText
  import opened ListingUrl
  import opened InvoicePdf

  const InvalidUrlMessage: string := "Please enter a valid Garage listing URL."
  const StatusMessagePrefix: string := "Request failed with status "
  const NotFoundMessage: string := "Listing data not found in the response."
  const ThrownErrorPrefix: string := "An error occurred: "
  const UnexpectedMessage: string := "An unexpected error occurred while fetching the listing."
  const ListingEndpoint: string := "https://garage-backend.onrender.com/getListing"

  /** The request `fetch` is asked to send. */
  datatype Request = Request(url: string, httpMethod: string, contentType: string, body: string)

  /** The POST that asks the backend for listing `id`. The body is
      `JSON.stringify({ id })`; the identifier is made of characters of the
      class `[a-f0-9-]`, none of which JSON escapes. */
  function ListingRequest(id: string): (r: Request)
    requires forall i :: 0 <= i < |id| ==> IsIdChar(id[i])
    ensures r.url == ListingEndpoint && r.httpMethod == "POST" && r.contentType == "application/json"
    ensures |r.body| == |id| + 9 && r.body[7..|r.body| - 2] == id
    ensures r.body[..7] == "{\"id\":\"" && r.body[|r.body| - 2..] == "\"}"
  {
    Request(ListingEndpoint, "POST", "application/json", "{\"id\":\"" + id + "\"}")
  }

  /** The values of `error` and `listingData` when a submission ends. */
  datatype Outcome = Outcome(error: string, listing: Option<Listing>)

  /** Every submission ends either with a listing shown and no error, or with
      no listing and an error message. */
  predicate Settled(o: Outcome)
  {
    (o.listing.Some? && o.error == "") || (o.listing.None? && o.error != "")
  }

  /** `(resultJson as ApiError)?.message || \`Request failed with status ${status}\``. */
  function NonOkMessage(body: Option<ResponseBody>, status: nat): (m: string)
    ensures m != ""
  {
    if body.Some? && Truthy(body.value.message) then body.value.message.value
    else StatusMessagePrefix + DecimalString(status)
  }

  /** The outcome of the fetch and its handling (app/page.tsx:41-90), once
      the URL has passed validation. */
  function ExchangeOutcome(x: Exchange): (o: Outcome)
    ensures Settled(o)
  {
    match x
    case Threw(ErrorObject(message)) => Outcome(ThrownErrorPrefix + message, None)
    case Threw(OtherValue) => Outcome(UnexpectedMessage, None)
    case Responded(ok, status, body) =>
      if !ok then Outcome(NonOkMessage(body, status), None)
      else if body.Some? && Truthy(body.value.error) then Outcome(body.value.error.value, None)
      else if body.Some? && body.value.result.Some? && body.value.result.value.listing.Some? then
        Outcome("", body.value.result.value.listing)
      else Outcome(NotFoundMessage, None)
  }

  /** The outcome of one submission of `url`: a URL the pattern rejects ends
      it before any request is made. */
  function SubmitOutcome(url: string, x: Exchange): (o: Outcome)
    ensures Settled(o)
    ensures MatchListingUrl(url).None? ==> o == Outcome(InvalidUrlMessage, None)
  {
    if MatchListingUrl(url).None? then Outcome(InvalidUrlMessage, None) else ExchangeOutcome(x)
  }

  /** A non-ok response shows the body's non-empty `message`, and otherwise a
      message naming the status code, whatever else the body holds. */
  lemma NonOkResponse(status: nat, body: Option<ResponseBody>)
    ensures ExchangeOutcome(Responded(false, status, body)).listing.None?
    ensures body.Some? && Truthy(body.value.message) ==>
      ExchangeOutcome(Responded(false, status, body)).error == body.value.message.value
    ensures !(body.Some? && Truthy(body.value.message)) ==>
      var e := ExchangeOutcome(Responded(false, status, body)).error;
      && |e| > |StatusMessagePrefix|
      && e[..|StatusMessagePrefix|] == StatusMessagePrefix
      && (forall i :: |StatusMessagePrefix| <= i < |e| ==> IsDigit(e[i]))
      && DigitsValue(e[|StatusMessagePrefix|..]) == status
      && (e[|StatusMessagePrefix|] == '0' ==> status == 0)
  {
    if !(body.Some? && Truthy(body.value.message)) {
      var e := ExchangeOutcome(Responded(false, status, body)).error;
      assert e[|StatusMessagePrefix|..] == DecimalString(status);
      DecimalStringRoundTrip(status);
    }
  }

  /** Without a usable `message`, different status codes give different
      fallback messages. */
  lemma NonOkFallbackInjective(m: nat, n: nat)
    requires NonOkMessage(None, m) == NonOkMessage(None, n)
    ensures m == n
  {
    var a := NonOkMessage(None, m);
    var b := NonOkMessage(None, n);
    assert a[|StatusMessagePrefix|..] == DecimalString(m);
    assert b[|StatusMessagePrefix|..] == DecimalString(n);
    DecimalStringInjective(m, n);
  }

  /** An ok response: a non-empty `error` field wins over any listing; else a
      listing is shown and the error cleared; else (an unparseable body
      included, as well as `{}` and `{ result: { listing: null } }`) the
      listing is reported missing. */
  lemma OkResponse(status: nat, body: Option<ResponseBody>)
    ensures var o := ExchangeOutcome(Responded(true, status, body));
      && (body.Some? && Truthy(body.value.error) ==> o == Outcome(body.value.error.value, None))
      && ((!(body.Some? && Truthy(body.value.error)) && body.Some? && body.value.result.Some?
           && body.value.result.value.listing.Some?) ==> o.listing == body.value.result.value.listing && o.error == "")
      && ((!(body.Some? && Truthy(body.value.error)) && !(body.Some? && body.value.result.Some?
           && body.value.result.value.listing.Some?)) ==> o == Outcome(NotFoundMessage, None))
      && (o.listing.Some? <==> body.Some? && !Truthy(body.value.error) && body.value.result.Some?
                               && body.value.result.value.listing.Some?)
  {
  }

  /** A thrown `Error` shows its message after a fixed prefix; any other
      thrown value shows a fixed message; neither leaves a listing. */
  lemma TransportFailure(message: string)
    ensures ExchangeOutcome(Threw(ErrorObject(message))) == Outcome(ThrownErrorPrefix + message, None)
    ensures ExchangeOutcome(Threw(OtherValue)) == Outcome(UnexpectedMessage, None)
  {
  }

  /** A 404 whose body is `{ message: "not found" }` shows "not found". */
  lemma NotFoundResponse()
    ensures ExchangeOutcome(Responded(false, 404, Some(ResponseBody(Some("not found"), None, None))))
         == Outcome("not found", None)
  {
  }

  /** A 500 with an unparseable body shows the status-coded fallback. */
  lemma UnparseableServerError()
    ensures ExchangeOutcome(Responded(false, 500, None))
         == Outcome("Request failed with status 500", None)
  {
    assert DecimalString(5) == "5";
    assert DecimalString(50) == "50";
    assert DecimalString(500) == "500";
  }

  /** The `onChange` rule for the error message: typing clears a shown error
      only when the field becomes empty or starts with the listing prefix;
      typing never sets an error. */
  function ErrorAfterEdit(current: string, value: string): (next: string)
    ensures next == current || next == ""
    ensures next == "" <==> current == "" || value == "" || ListingPrefix <= value
  {
    if current != "" && (value == "" || ListingPrefix <= value) then "" else current
  }

  /** The prefix test of `onChange` and the pattern disagree on leading text:
      a URL with a leading space is accepted on submission, yet typing it
      leaves a shown error in place. */
  lemma LeadingSpaceKeepsError(s: string)
    requires MatchListingUrl(s).Some?
    ensures MatchListingUrl(" " + s) == MatchListingUrl(s)
    ensures ErrorAfterEdit(InvalidUrlMessage, " " + s) == InvalidUrlMessage
  {
    LeadingTextAccepted(" ", s);
    var u := " " + s;
    assert |u| >= |ListingPrefix|;
    assert u[0] != ListingPrefix[0];
  }

  class Home {
    var url: string
    var error: string
    var loading: bool
    var listingData: Option<Listing>

    /** The initial state of the page (app/page.tsx:11-14). */
    constructor ()
      ensures url == "" && error == "" && !loading && listingData.None?
      ensures !SubmitEnabled()
    {
      url := "";
      error := "";
      loading := false;
      listingData := None;
    }

    /** `disabled={loading || !url}`: the button is enabled when no
        submission is running and the field is not empty. */
    function SubmitEnabled(): (enabled: bool)
      reads this
      ensures enabled <==> !loading && |url| > 0
    {
      !(loading || url == "")
    }

    /** `validateUrl`: the identifier the pattern captures, or `None` with
        the invalid-URL message set. It never fails. */
    method ValidateUrl(input: string) returns (id: Option<string>)
      modifies this`error
      ensures id == MatchListingUrl(input)
      ensures error == if id.None? then InvalidUrlMessage else old(error)
    {
      id := MatchListingUrl(input);
      if id.None? {
        error := InvalidUrlMessage;
      }
    }

    /** `handleSubmit` for one submission whose HTTP exchange ends as
        `exchange`. Returns the request sent, `None` when the URL is rejected
        before any request. Every path ends with `loading` cleared in a
        settled state that does not depend on the state before. */
    method HandleSubmit(exchange: Exchange) returns (request: Option<Request>)
      modifies this`error, this`loading, this`listingData
      ensures !loading
      ensures Outcome(error, listingData) == SubmitOutcome(url, exchange)
      ensures Settled(Outcome(error, listingData))
      ensures request == match MatchListingUrl(url)
                         case Some(id) => Some(ListingRequest(id))
                         case None => None
      ensures SubmitEnabled() <==> url != ""
    {
      loading := true;
      error := "";
      listingData := None;

      var id := ValidateUrl(url);
      if id.None? {
        loading := false;
        return None;
      }
      request := Some(ListingRequest(id.value));

      match exchange {
        case Responded(ok, status, body) =>
          if !ok {
            error := NonOkMessage(body, status);
            listingData := None;
            loading := false;
            return;
          }
          if body.Some? && Truthy(body.value.error) {
            error := body.value.error.value;
            listingData := None;
          } else if body.Some? && body.value.result.Some? && body.value.result.value.listing.Some? {
            listingData := body.value.result.value.listing;
            error := "";
          } else {
            error := NotFoundMessage;
            listingData := None;
          }
        case Threw(thrown) =>
          match thrown {
            case ErrorObject(message) =>
              error := ThrownErrorPrefix + message;
            case OtherValue =>
              error := UnexpectedMessage;
          }
          listingData := None;
      }
      loading := false;
    }

    /** The input's `onChange`: the field takes the typed value and a shown
        error is cleared by the prefix rule. */
    method OnChange(value: string)
      modifies this`url, this`error
      ensures url == value
      ensures error == ErrorAfterEdit(old(error), value)
    {
      url := value;
      if error != "" && (value == "" || ListingPrefix <= value) {
        error := "";
      }
    }

    /** `handleDownloadPdf`: nothing without a listing; otherwise the invoice
        for the listing shown, for the given outcome of the image step. */
    method HandleDownloadPdf(image: ImageOutcome, fx: Formatters) returns (saved: Option<PdfDocument>)
      ensures saved.None? <==> listingData.None?
      ensures listingData.Some? ==> saved.Some? && DocumentFor(listingData.value, image, fx, saved.value)
    {
      if listingData.None? {
        return None;
      }
      var doc := ComposeDocument(listingData.value, image, fx);
      saved := Some(doc);
    }
  }
}
