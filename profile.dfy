/** The persona's profile panel: the label of the affection bar, the
    one-off gesture animations, and the portrait, which is generated anew
    whenever the mood, the look or the custom details change. */
module AiProfile {
  import opened Wrappers
  import opened Types
  import opened Text
  import opened Persona
  import opened HistoryCodec
  import opened AvatarPrompt
  import opened Notifications

  // ---------------------------------------------------------------------
  // The affection label

  /** The four labels of the affection bar. */
  datatype Label = GettingToKnowYou | WarmingUp | FeelingClose | DeeplyBondedLabel

  function LabelText(l: Label): string {
    match l
    case GettingToKnowYou => "Getting to know you"
    case WarmingUp => "Warming up"
    case FeelingClose => "Feeling close"
    case DeeplyBondedLabel => "Deeply Bonded"
  }

  /** The label of a level: below 25 points, below 50, below 75, and the
      rest (50, 100 and 150 half points). */
  function AffectionLabel(level: HalfPoints): (l: Label)
    ensures l == GettingToKnowYou <==> level < 50
    ensures l == WarmingUp <==> 50 <= level < 100
    ensures l == FeelingClose <==> 100 <= level < 150
    ensures l == DeeplyBondedLabel <==> 150 <= level
  {
    if level < 50 then GettingToKnowYou
    else if level < 100 then WarmingUp
    else if level < 150 then FeelingClose
    else DeeplyBondedLabel
  }

  function AffectionLevelText(level: HalfPoints): string {
    LabelText(AffectionLabel(level))
  }

  /** The bar's label and the persona's instruction agree: the first label
      shows exactly while the persona is getting to know the user, the last
      exactly while it is deeply bonded, and the two middle labels split
      the tier in between. */
  lemma LabelFollowsTier(level: HalfPoints)
    ensures AffectionLabel(level) == GettingToKnowYou <==> TierOf(level) == GettingToKnow
    ensures AffectionLabel(level) in {WarmingUp, FeelingClose} <==> TierOf(level) == BecomingClose
    ensures AffectionLabel(level) == DeeplyBondedLabel <==> TierOf(level) == DeeplyBonded
  {
  }

  /** A higher level never shows an earlier label. */
  lemma LabelMonotone(a: HalfPoints, b: HalfPoints)
    requires a <= b
    ensures Rank(AffectionLabel(a)) <= Rank(AffectionLabel(b))
  {
  }

  function Rank(l: Label): nat {
    match l
    case GettingToKnowYou => 0
    case WarmingUp => 1
    case FeelingClose => 2
    case DeeplyBondedLabel => 3
  }

  // ---------------------------------------------------------------------
  // The portrait

  /** The data URL a generated picture is shown with. */
  function AvatarUrl(bytes: string): string {
    "data:image/jpeg;base64" + "," + bytes
  }

  /** What a generation request resolves to or throws: the picture's
      bytes, or an `Error` carrying the failure text. */
  function Generated(images: Result<seq<Option<string>>, Thrown>): (r: Result<string, Thrown>)
    ensures r.Err? ==> r.error.ErrorValue?
    ensures r.Ok? ==> r.value != []
  {
    match GenerateAvatar(images)
    case Ok(bytes) => Ok(bytes)
    case Err(f) => Err(ErrorValue(AvatarFailureText(f)))
  }

  /** The text a failed fetch shows: the `Error`'s own message, or a fixed
      notice for a thrown non-`Error`. */
  function FetchErrorText(e: Thrown): string {
    MessageOr(e, "Could not load appearance.")
  }

  /** The gestures the user can ask for. */
  datatype Gesture = Wave | Think | Smile

  /** An animation played on the portrait: a gesture the user asked for. */
  datatype Animation = GestureAnimation(gesture: Gesture)

  class AvatarPanel {
    var customAnimation: Option<Animation>
    var isAvatarLoading: bool
    var avatarError: Option<string>
    var avatarImageUrl: Option<string>
    /** Every picture address handed to the conversation view, in order
        (None when the portrait is withdrawn). */
    var reported: seq<Option<string>>

    /** The panel as it opens: loading, with no picture, error or
        animation. */
    constructor ()
      ensures customAnimation.None? && isAvatarLoading && avatarError.None? && avatarImageUrl.None? && reported == []
    {
      customAnimation := None;
      isAvatarLoading := true;
      avatarError := None;
      avatarImageUrl := None;
      reported := [];
    }

    /** A gesture button: ignored while an animation plays, otherwise the
        gesture starts. */
    method ActionClick(g: Gesture)
      modifies this`customAnimation
      ensures old(customAnimation).Some? ==> customAnimation == old(customAnimation)
      ensures old(customAnimation).None? ==> customAnimation == Some(GestureAnimation(g))
    {
      if customAnimation.None? {
        customAnimation := Some(GestureAnimation(g));
      }
    }

    /** The end of the playing animation. */
    method AnimationComplete()
      modifies this`customAnimation
      ensures customAnimation.None?
    {
      if customAnimation.Some? {
        customAnimation := None;
      }
    }

    /** The start of a fetch: loading is set, the error cleared and the
        conversation view told that there is no picture. */
    method FetchStart()
      modifies this`isAvatarLoading, this`avatarError, this`reported
      ensures isAvatarLoading && avatarError.None?
      ensures reported == old(reported) + [None]
    {
      isAvatarLoading := true;
      avatarError := None;
      reported := reported + [None];
    }

    /** The end of a fetch, given what the request resolved to or threw.
        Success: the picture's data URL is shown and handed to the
        conversation view. Failure: the error is shown and notified (`now`
        is the clock reading that becomes the notification's id) and the
        view is told there is no picture; the previous picture stays behind
        the error. Loading ends either way. */
    method FetchFinish(result: Result<string, Thrown>, center: NotificationCenter, now: int)
      modifies this`isAvatarLoading, this`avatarError, this`avatarImageUrl, this`reported, center
      ensures result.Ok? ==>
        avatarImageUrl == Some(AvatarUrl(result.value)) && avatarError == old(avatarError)
        && reported == old(reported) + [Some(AvatarUrl(result.value))]
        && center.notifications == old(center.notifications)
      ensures result.Err? ==>
        avatarError == Some(FetchErrorText(result.error)) && avatarImageUrl == old(avatarImageUrl)
        && reported == old(reported) + [None]
        && center.notifications == old(center.notifications) + [Notification(now, FetchErrorText(result.error), Error)]
      ensures !isAvatarLoading
    {
      match result {
        case Ok(bytes) =>
          var url := AvatarUrl(bytes);
          avatarImageUrl := Some(url);
          reported := reported + [Some(url)];
        case Err(e) =>
          var message := FetchErrorText(e);
          avatarError := Some(message);
          center.Add(message, Error, now);
          reported := reported + [None];
      }
      isAvatarLoading := false;
    }
  }

  /** A failed generation is shown with one of the two avatar failure
      texts; a successful one with the first image's bytes. */
  lemma GeneratedShown(images: Result<seq<Option<string>>, Thrown>)
    ensures var r := Generated(images);
      (r.Err? ==> exists f :: FetchErrorText(r.error) == AvatarFailureText(f))
      && (r.Ok? ==> images.Ok? && |images.value| > 0 && r.value == images.value[0].value)
  {
  }

  /** The payload of a data URL whose header has no comma is the text
      after the header's comma, when that text has none either. */
  lemma DataUrlPayload(header: string, payload: string)
    requires forall j :: 0 <= j < |header| ==> header[j] != ','
    requires forall j :: 0 <= j < |payload| ==> payload[j] != ','
    ensures SecondCommaField(header + "," + payload) == Some(payload)
  {
    var s := header + "," + payload;
    var k := |header|;
    assert s[k] == ',';
    assert forall j :: 0 <= j < k ==> s[j] != ',' by {
      forall j | 0 <= j < k ensures s[j] != ',' {
        assert s[j] == header[j];
      }
    }
    assert forall j :: k < j < |s| ==> s[j] != ',' by {
      forall j | k < j < |s| ensures s[j] != ',' {
        assert s[j] == payload[j - k - 1];
      }
    }
    assert IndexOf(s, ',', 0) == Some(k);
    assert IndexOf(s, ',', k + 1) == None;
    assert s[k + 1..|s|] == payload;
  }

  /** A portrait's data URL, used as an attachment, hands back the
      picture's bytes as inline data (base64 text has no comma). */
  lemma AvatarUrlRoundTrip(name: string, bytes: string)
    requires bytes != []
    requires forall j :: 0 <= j < |bytes| ==> bytes[j] != ','
    ensures AttachmentPart(Some(Attachment(name, "image/jpeg", AvatarUrl(bytes)))) == Some(InlineData("image/jpeg", bytes))
  {
    var header := "data:image/jpeg;base64";
    assert forall j :: 0 <= j < |header| ==> header[j] != ',';
    DataUrlPayload(header, bytes);
  }
}
