/**
 * The public contact form: a four-field record, a submission status
 * (idle, loading, success, error) guarded against double submission, the
 * insert into the `messages` table, the timed and manual returns to idle,
 * and the predicate that swaps the form for a mail link on phones.
 */
module Contact {
  import opened Wrappers
  import opened Text

  datatype FormData = FormData(name: string, email: string, subject: string, message: string)

  /** The form as first shown and as reset after a successful send. */
  const EmptyForm := FormData("", "", "", "")

  /** The form's `status`; `Failed` is the source's "error". */
  datatype Status = Idle | Loading | Success | Failed

  /** The four inputs. */
  datatype Field = Name | Email | Subject | Message

  function Get(d: FormData, f: Field): string
  {
    match f
    case Name => d.name
    case Email => d.email
    case Subject => d.subject
    case Message => d.message
  }

  /** `{ ...formData, [f]: v }`: field `f` reads `v` afterwards and every
      other field reads as before. */
  function With(d: FormData, f: Field, v: string): (r: FormData)
    ensures Get(r, f) == v
    ensures forall g :: g != f ==> Get(r, g) == Get(d, g)
  {
    match f
    case Name => d.(name := v)
    case Email => d.(email := v)
    case Subject => d.(subject := v)
    case Message => d.(message := v)
  }

  /** The device names of the user-agent test. */
  const MobileDevices: seq<string> := ["iPhone", "iPad", "iPod", "Android"]

  /** `innerWidth < 768 || /iPhone|iPad|iPod|Android/i.test(userAgent)`: the
      window is narrow, or one of the device names occurs in the user agent
      up to ASCII case. */
  function IsMobile(width: int, userAgent: string): (r: bool)
    ensures r <==> width < 768
                   || exists k, i :: 0 <= k < |MobileDevices|
                                     && MatchesAtIgnoringCase(userAgent, MobileDevices[k], i)
  {
    var ua := ToLower(userAgent);
    var r := width < 768 || Contains(ua, "iphone") || Contains(ua, "ipad")
             || Contains(ua, "ipod") || Contains(ua, "android");
    forall k | 0 <= k < |MobileDevices|
      ensures Contains(ua, ToLower(MobileDevices[k]))
              <==> exists i :: MatchesAtIgnoringCase(userAgent, MobileDevices[k], i)
    {
      ContainsIgnoringCase(userAgent, MobileDevices[k]);
    }
    assert ToLower(MobileDevices[0]) == "iphone" && ToLower(MobileDevices[1]) == "ipad";
    assert ToLower(MobileDevices[2]) == "ipod" && ToLower(MobileDevices[3]) == "android";
    assert r <==> width < 768 || exists k :: 0 <= k < |MobileDevices| && Contains(ua, ToLower(MobileDevices[k]));
    r
  }

  /** The test ignores case: a user agent and its lowercased form agree. */
  lemma IsMobileIgnoresCase(width: int, userAgent: string)
    ensures IsMobile(width, ToLower(userAgent)) == IsMobile(width, userAgent)
  {
    ToLowerIdempotent(userAgent);
  }

  /**
   * The form component's state. `inFlight` is the copy of the form that the
   * pending insert carries (the value `handleSubmit` captured when it set the
   * status to loading); `messages` is the backend's `messages` table as far as
   * this form adds to it.
   */
  class ContactForm {
    var formData: FormData
    var status: Status
    var inFlight: Option<FormData>
    var messages: seq<FormData>

    /** An insert is pending exactly while the status is loading. */
    ghost predicate Valid()
      reads this
    {
      (status == Loading) <==> inFlight.Some?
    }

    constructor (stored: seq<FormData>)
      ensures Valid()
      ensures formData == EmptyForm && status == Idle && inFlight == None && messages == stored
    {
      formData := EmptyForm;
      status := Idle;
      inFlight := None;
      messages := stored;
    }

    /** The submit button is disabled while loading. */
    predicate SubmitDisabled()
      reads this
    {
      status == Loading
    }

    /** The success overlay, with its close button, shows only on success. */
    predicate SuccessModalShown()
      reads this
    {
      status == Success
    }

    /** The red banner under the button shows only on error. */
    predicate ErrorBannerShown()
      reads this
    {
      status == Failed
    }

    /** Typing into one input: exactly that field of the form changes. */
    method EditField(f: Field, v: string)
      requires Valid()
      modifies this
      ensures Valid()
      ensures formData == With(old(formData), f, v)
      ensures status == old(status) && inFlight == old(inFlight) && messages == old(messages)
    {
      formData := With(formData, f, v);
    }

    /** The first half of `handleSubmit`: ignored while a submission is
        loading; otherwise the status becomes loading and the insert of the
        current form is started. */
    method Submit() returns (started: bool)
      requires Valid()
      modifies this
      ensures Valid()
      ensures started <==> !old(SubmitDisabled())
      ensures !started ==> unchanged(this)
      ensures started ==> SubmitDisabled() && !SuccessModalShown() && !ErrorBannerShown()
      ensures started ==> status == Loading && inFlight == Some(old(formData))
                          && formData == old(formData) && messages == old(messages)
    {
      if status == Loading {
        return false;
      }
      status := Loading;
      inFlight := Some(formData);
      started := true;
    }

    /** The second half of `handleSubmit`, when the insert settles. On
        success the row is stored, the status is success and every field is
        cleared; on failure the status is error and the form is kept. */
    method InsertSettled(ok: bool)
      requires Valid() && status == Loading
      modifies this
      ensures Valid() && inFlight == None && !SubmitDisabled()
      ensures SuccessModalShown() <==> ok
      ensures ErrorBannerShown() <==> !ok
      ensures ok ==> status == Success && formData == EmptyForm
                     && messages == old(messages) + [old(inFlight).value]
      ensures !ok ==> status == Failed && formData == old(formData) && messages == old(messages)
    {
      if ok {
        messages := messages + [inFlight.value];
        status := Success;
        formData := EmptyForm;
      } else {
        status := Failed;
      }
      inFlight := None;
    }

    /** A revert timer fires (8000 ms after success, 5000 ms after error):
        the status returns to idle and nothing else changes. */
    method TimerFired()
      requires Valid() && status != Loading
      modifies this`status
      ensures Valid() && status == Idle
      ensures !SubmitDisabled() && !SuccessModalShown() && !ErrorBannerShown()
    {
      status := Idle;
    }

    /** The close button of the success overlay: back to idle. */
    method Close()
      requires Valid() && SuccessModalShown()
      modifies this`status
      ensures Valid() && status == Idle
    {
      status := Idle;
    }
  }
}
