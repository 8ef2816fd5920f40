/** The chat page of frontend/src/App.jsx: the form record, the submit handler that
    validates the form, posts it and streams the reply into `response`, and the health
    check. Rendering, `fetch`, `alert` and byte decoding are not modelled: the outcome of
    the request arrives as a parameter, and every read yields an already decoded string. */
module Frontend {
  import opened Wrappers
  import Text

  /** The names of the four inputs, which are also the keys of `formData`. */
  const DeveloperField := "developerMessage"
  const UserField := "userMessage"
  const ModelField := "model"
  const ApiKeyField := "apiKey"

  const InitialModel := "gpt-4.1-mini"

  const RequiredFields := "Please fill in all required fields"
  const SubmitFailurePrefix := "Failed to get response: "
  const NoReader := "Failed to get response reader"
  const HealthFailed := "API health check failed"
  const HealthFailurePrefix := "Health check failed: "

  type Form = map<string, string>

  /** Every input of the page has its key in the form record. */
  predicate HasFields(form: Form)
  {
    DeveloperField in form && UserField in form && ModelField in form && ApiKeyField in form
  }

  /** The form record the page starts with. */
  function InitialForm(): (form: Form)
    ensures HasFields(form)
    ensures form[ModelField] == InitialModel
    ensures form[DeveloperField] == form[UserField] == form[ApiKeyField] == ""
  {
    map[DeveloperField := "", UserField := "", ModelField := InitialModel, ApiKeyField := ""]
  }

  /** `handleInputChange`: the spread of the previous record with the named field replaced. */
  function ApplyInput(form: Form, name: string, value: string): (r: Form)
    ensures r.Keys == form.Keys + {name}
    ensures name in r && r[name] == value
    ensures forall k :: k in form && k != name ==> r[k] == form[k]
  {
    form[name := value]
  }

  /** The characters `String.prototype.trim` removes: white space and line terminators. */
  predicate JsIsSpace(c: char)
  {
    || c == '\t' || c == '\n' || c == '\U{b}' || c == '\U{c}' || c == '\r' || c == ' '
    || c == '\U{a0}' || c == '\U{1680}' || '\U{2000}' <= c <= '\U{200a}'
    || c == '\U{2028}' || c == '\U{2029}' || c == '\U{202f}' || c == '\U{205f}'
    || c == '\U{3000}' || c == '\U{feff}'
  }

  /** `String.prototype.trim`. */
  function Trim(s: string): string
  {
    Text.Strip(s, JsIsSpace)
  }

  /** The required fields: all but the model. */
  predicate Filled(form: Form)
    requires HasFields(form)
  {
    && !Text.Blank(form[DeveloperField], JsIsSpace)
    && !Text.Blank(form[UserField], JsIsSpace)
    && !Text.Blank(form[ApiKeyField], JsIsSpace)
  }

  /** The check of `handleSubmit`, `!x.trim()` for each required field, is `Filled`. */
  lemma FilledIffTrimmed(form: Form)
    requires HasFields(form)
    ensures Filled(form) <==> Trim(form[DeveloperField]) != "" && Trim(form[UserField]) != "" && Trim(form[ApiKeyField]) != ""
  {
    Text.StripEmptyIffBlank(form[DeveloperField], JsIsSpace);
    Text.StripEmptyIffBlank(form[UserField], JsIsSpace);
    Text.StripEmptyIffBlank(form[ApiKeyField], JsIsSpace);
  }

  /** The JSON body posted to `/api/chat`. */
  datatype ChatBody = ChatBody(developerMessage: string, userMessage: string, model: string, apiKey: string)

  function RequestBody(form: Form): (b: ChatBody)
    requires HasFields(form)
    ensures b.developerMessage == form[DeveloperField] && b.userMessage == form[UserField]
    ensures b.model == form[ModelField] && b.apiKey == form[ApiKeyField]
  {
    ChatBody(form[DeveloperField], form[UserField], form[ModelField], form[ApiKeyField])
  }

  /** How the response body ends after its decoded chunks: `done`, or a read that throws. */
  datatype StreamEnd = Done | ReadError(message: string)

  /** The body of a response as its reader delivers it. */
  datatype Body = Body(chunks: seq<string>, end: StreamEnd)

  /** What `fetch` produced: a rejected promise, or a response whose body may be missing. */
  datatype FetchOutcome =
    | Rejected(message: string)
    | Response(status: nat, statusText: string, body: Option<Body>)

  /** One `reader.read()`: the next chunk, the end of the body, or the error it throws. */
  datatype Read = Chunk(text: string) | Finished | Thrown(message: string)

  function ReadAt(body: Body, i: nat): (r: Read)
    ensures r.Chunk? <==> i < |body.chunks|
    ensures r.Chunk? ==> r.text == body.chunks[i]
    ensures r.Finished? <==> i >= |body.chunks| && body.end == Done
  {
    if i < |body.chunks| then Chunk(body.chunks[i])
    else if body.end.Done? then Finished
    else Thrown(body.end.message)
  }

  /** `Response.ok`. */
  predicate IsOk(status: nat)
  {
    200 <= status <= 299
  }

  /** The error text the `catch` of `handleSubmit` shows for an exception message. */
  function SubmitFailure(message: string): (e: string)
    ensures SubmitFailurePrefix <= e && e[|SubmitFailurePrefix|..] == message
  {
    SubmitFailurePrefix + message
  }

  /** The message of the exception thrown for a response that is not ok. */
  function ApiError(status: nat, statusText: string): (m: string)
    ensures "API Error: " <= m
  {
    "API Error: " + Text.NatToString(status) + " " + statusText
  }

  /** The values `response` takes while the body streams in: after the k-th chunk, the
      first k chunks joined together. */
  function Snapshots(chunks: seq<string>): (r: seq<string>)
    ensures |r| == |chunks|
    ensures forall k :: 0 <= k < |r| ==> r[k] == Text.Concat(chunks[..k + 1])
  {
    seq(|chunks|, k requires 0 <= k < |chunks| => Text.Concat(chunks[..k + 1]))
  }

  /** Reading one more chunk adds one value to what was shown: the previous one followed
      by that chunk. */
  lemma SnapshotsStep(chunks: seq<string>, i: nat)
    requires i < |chunks|
    ensures Text.Concat(chunks[..i + 1]) == Text.Concat(chunks[..i]) + chunks[i]
    ensures Snapshots(chunks[..i + 1]) == Snapshots(chunks[..i]) + [Text.Concat(chunks[..i + 1])]
  {
    var front := chunks[..i + 1];
    assert front[..i] == chunks[..i] && front[i] == chunks[i];
    assert Text.Concat(front) == Text.Concat(chunks[..i]) + chunks[i];
    assert front[..i + 1] == front;
    forall k | 0 <= k < i
      ensures Snapshots(front)[k] == Snapshots(chunks[..i])[k]
    {
      assert front[..k + 1] == chunks[..i][..k + 1];
    }
  }

  /** Text is only ever appended: each value shown extends every earlier one, and the last
      one is the whole body. */
  lemma SnapshotsGrow(chunks: seq<string>, j: nat, k: nat)
    requires j <= k < |chunks|
    ensures Snapshots(chunks)[j] <= Snapshots(chunks)[k]
    ensures Snapshots(chunks)[|chunks| - 1] == Text.Concat(chunks)
  {
    Text.ConcatPrefix(chunks, j + 1, k + 1);
    assert chunks[..|chunks|] == chunks;
  }

  /** What `checkHealth` sees: `fetch` or `json()` threw, or the reply's `status` field
      (None when it is absent or not a string). */
  datatype Health = Unreachable(message: string) | Reported(status: Option<string>)

  /** The error `checkHealth` leaves: cleared exactly when the server reports "ok". */
  function HealthError(health: Health): (e: string)
    ensures e == "" <==> health == Reported(Some("ok"))
    ensures health.Reported? && health != Reported(Some("ok")) ==> e == HealthFailed
    ensures health.Unreachable? ==> HealthFailurePrefix <= e && e[|HealthFailurePrefix|..] == health.message
  {
    match health
    case Unreachable(message) => HealthFailurePrefix + message
    case Reported(status) => if status == Some("ok") then "" else HealthFailed
  }

  /** The state of the `App` component. */
  class App {
    var formData: Form
    var response: string
    var isLoading: bool
    var error: string
    /** Every value given to `setResponse` while the last accepted submit streamed. */
    ghost var shown: seq<string>

    ghost predicate Valid()
      reads this
    {
      HasFields(formData)
    }

    constructor ()
      ensures Valid()
      ensures formData == InitialForm() && response == "" && !isLoading && error == ""
    {
      formData := InitialForm();
      response, isLoading, error := "", false, "";
      shown := [];
    }

    /** `handleInputChange` for an input named `name`. */
    method HandleInputChange(name: string, value: string)
      requires Valid()
      modifies this
      ensures Valid()
      ensures formData == ApplyInput(old(formData), name, value)
      ensures response == old(response) && isLoading == old(isLoading) && error == old(error)
      ensures shown == old(shown)
    {
      formData := ApplyInput(formData, name, value);
    }

    /** `handleSubmit`. Returns the body it posts, or None when validation stops it. A form
        with a blank required field only sets the error. Otherwise the state is reset, the
        request is made, the body is streamed into `response` chunk by chunk, any failure
        is shown in `error` without rolling back text already shown, and loading ends on
        every path. */
    method HandleSubmit(fetch: FetchOutcome) returns (sent: Option<ChatBody>)
      requires Valid()
      modifies this
      ensures Valid() && formData == old(formData)
      ensures !Filled(formData) ==>
        && sent == None && error == RequiredFields
        && response == old(response) && isLoading == old(isLoading) && shown == old(shown)
      ensures Filled(formData) ==> sent == Some(RequestBody(formData)) && !isLoading
      ensures Filled(formData) && fetch.Rejected? ==>
        response == "" && shown == [] && error == SubmitFailure(fetch.message)
      ensures Filled(formData) && fetch.Response? && !IsOk(fetch.status) ==>
        response == "" && shown == [] && error == SubmitFailure(ApiError(fetch.status, fetch.statusText))
      ensures Filled(formData) && fetch.Response? && IsOk(fetch.status) && fetch.body.None? ==>
        response == "" && shown == [] && error == SubmitFailure(NoReader)
      ensures Filled(formData) && fetch.Response? && IsOk(fetch.status) && fetch.body.Some? ==>
        var body := fetch.body.value;
        && shown == Snapshots(body.chunks)
        && response == Text.Concat(body.chunks)
        && error == (if body.end.Done? then "" else SubmitFailure(body.end.message))
    {
      // `!x.trim()` for each required field, as FilledIffTrimmed shows.
      if !Filled(formData) {
        error := RequiredFields;
        return None;
      }

      isLoading := true;
      error := "";
      response := "";
      shown := [];

      sent := Some(RequestBody(formData));
      match fetch {
        case Rejected(message) =>
          error := SubmitFailure(message);
        case Response(status, statusText, body) =>
          if !IsOk(status) {
            error := SubmitFailure(ApiError(status, statusText));
          } else if body.None? {
            error := SubmitFailure(NoReader);
          } else {
            ReadBody(body.value);
          }
      }
      isLoading := false;
    }

    /** The read loop of `handleSubmit`: appends each decoded chunk to the text shown and
        stops at the end of the body or at the first read that throws. */
    method ReadBody(body: Body)
      requires response == "" && shown == [] && error == ""
      modifies this
      ensures shown == Snapshots(body.chunks) && response == Text.Concat(body.chunks)
      ensures error == (if body.end.Done? then "" else SubmitFailure(body.end.message))
      ensures formData == old(formData) && isLoading == old(isLoading)
    {
      var accumulated := "";
      var i := 0;
      while true
        invariant i <= |body.chunks|
        invariant accumulated == Text.Concat(body.chunks[..i])
        invariant response == accumulated && shown == Snapshots(body.chunks[..i])
        invariant error == "" && isLoading == old(isLoading) && formData == old(formData)
        decreases |body.chunks| - i
      {
        var read := ReadAt(body, i);
        if read.Finished? {
          break;
        }
        if read.Thrown? {
          error := SubmitFailure(read.message);
          break;
        }
        SnapshotsStep(body.chunks, i);
        accumulated := accumulated + read.text;
        response := accumulated;
        shown := shown + [accumulated];
        i := i + 1;
      }
      assert body.chunks[..i] == body.chunks;
    }

    /** `checkHealth`: returns whether the "healthy" alert is shown; only `error` changes. */
    method CheckHealth(health: Health) returns (alerted: bool)
      modifies this
      ensures error == HealthError(health)
      ensures alerted <==> health == Reported(Some("ok"))
      ensures formData == old(formData) && response == old(response) && isLoading == old(isLoading)
      ensures shown == old(shown)
    {
      match health {
        case Unreachable(message) =>
          error := HealthFailurePrefix + message;
          alerted := false;
        case Reported(status) =>
          if status == Some("ok") {
            error := "";
            alerted := true;
          } else {
            error := HealthFailed;
            alerted := false;
          }
      }
    }
  }
}
