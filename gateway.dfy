/** The calls into the generative service, with the service itself as a
    parameter: opening a session (instruction, seeded history, greeting),
    sending a message (the outgoing content, the decoding of a reply's
    reaction tag and the user-safe failure texts) and extracting memory
    candidates from a parsed extractor answer. */
module Gateway {
  import opened Wrappers
  import opened Types
  import opened Text
  import opened Persona
  import opened HistoryCodec

  // ---------------------------------------------------------------------
  // Opening a session

  /** An opened session: the service's handle, the instruction and history
      it was opened with, and the greeting to show. */
  datatype Session = Session(handle: ChatHandle, instruction: string, history: seq<Content>, greeting: string)

  /** A thrown `Error` whose message mentions `API_KEY`. */
  predicate MentionsApiKey(e: Thrown) {
    e.ErrorValue? && Contains(e.message, "API_KEY")
  }

  /** Why a session could not be opened: the API-key error, passed on with
      its own message, or any other failure, replaced by one fixed message. */
  datatype StartFailure = KeyProblem(message: string) | StartTrouble

  /** The message of the `Error` a failed start throws. */
  function StartFailureMessage(f: StartFailure): string {
    match f
    case KeyProblem(msg) => msg
    case StartTrouble =>
      "I'm having trouble getting started. Please check your connection or try refreshing the page."
  }

  /** Opening a session. `outcome` is what the service did with the request
      (reading the API key and creating the session): a handle, or what it
      threw. */
  function InitializeChat(x: PersonaTexts, m: Mood, affection: HalfPoints, userName: string,
                          history: seq<ChatMessage>, memories: seq<Memory>,
                          outcome: Result<ChatHandle, Thrown>): (r: Result<Session, StartFailure>)
    ensures r.Ok? <==> outcome.Ok?
    ensures r.Err? ==> (r.error.KeyProblem? <==> MentionsApiKey(outcome.error))
    ensures r.Err? && r.error.KeyProblem? ==> outcome.error == ErrorValue(r.error.message)
  {
    match outcome
    case Ok(h) =>
      Ok(Session(h, SystemInstruction(x, m, affection, userName, memories), ConvertHistory(history), Greeting(affection, userName)))
    case Err(e) =>
      if MentionsApiKey(e) then Err(KeyProblem(e.message)) else Err(StartTrouble)
  }

  /** A session opens with the instruction for the mood, affection, user and
      memories, the converted transcript and the greeting (whose properties
      are those of `Persona` and `HistoryCodec`). */
  lemma {:induction false} InitializeChatOpens(x: PersonaTexts, m: Mood, affection: HalfPoints, userName: string,
                            history: seq<ChatMessage>, memories: seq<Memory>, h: ChatHandle)
    ensures InitializeChat(x, m, affection, userName, history, memories, Ok(h))
      == Ok(Session(h, SystemInstruction(x, m, affection, userName, memories), ConvertHistory(history), Greeting(affection, userName)))
  {
  }

  // ---------------------------------------------------------------------
  // Sending a message

  /** What is sent: the message alone, or a text part and an image part. */
  datatype Outgoing = PlainText(message: string) | WithImage(parts: seq<Part>)

  /** The outgoing content. An attachment with a non-empty URL must carry a
      non-empty payload after its first comma, or the send fails before
      anything reaches the service. */
  function OutgoingContent(message: string, attachment: Option<Attachment>): Result<Outgoing, Thrown> {
    if attachment.Some? && attachment.value.url != [] then
      match AttachmentPart(attachment)
      case None => Err(ErrorValue("Invalid data URL for attachment"))
      case Some(p) => Ok(WithImage([TextPart(message), p]))
    else Ok(PlainText(message))
  }

  /** The outcome of a send a user can be shown. */
  datatype SendFailure = Connectivity | Configuration | Technical

  /** The failure a thrown value stands for: a message mentioning `fetch` or
      `network` in any letter case is a connectivity problem, else one
      mentioning `API key` (exactly so) a configuration problem; anything
      else, and a thrown value that is not an `Error`, is technical. */
  function ClassifySendError(e: Thrown): SendFailure {
    match e
    case NonError => Technical
    case ErrorValue(msg) =>
      if Contains(ToLower(msg), "fetch") || Contains(ToLower(msg), "network") then Connectivity
      else if Contains(msg, "API key") then Configuration
      else Technical
  }

  function FailureText(f: SendFailure): string {
    match f
    case Technical =>
      "I'm sorry, I encountered a technical difficulty. Could you please try again in a moment?"
    case Connectivity =>
      "I'm having trouble connecting to my servers. Please check your internet connection and try again."
    case Configuration =>
      "I'm encountering a configuration problem and can't connect at the moment. Please try again later."
  }

  /** A reply decoded: the text to show and the reaction it asked for. */
  datatype Reply = Reply(text: string, reaction: Option<Reaction>)

  /** The tag a reply opens with to ask for a reaction. */
  function Tag(r: Reaction): string {
    "[reaction:" + (ReactionName(r) + "]")
  }

  /** The reaction whose name, followed by `]`, opens `t`, with the text
      after the bracket. The four names start with different letters. */
  function NamedReaction(t: string): Option<(Reaction, string)> {
    match AfterPrefix(t, ReactionName(Heart) + "]")
    case Some(rest) => Some((Heart, rest))
    case None =>
      match AfterPrefix(t, ReactionName(Laugh) + "]")
      case Some(rest) => Some((Laugh, rest))
      case None =>
        match AfterPrefix(t, ReactionName(Surprise) + "]")
        case Some(rest) => Some((Surprise, rest))
        case None =>
          match AfterPrefix(t, ReactionName(Celebrate) + "]")
          case Some(rest) => Some((Celebrate, rest))
          case None => None
  }

  /** A reply opening with a reaction tag loses the tag and the white space
      after it and is trimmed; any other reply is shown as it came, with no
      reaction. */
  function DecodeReply(raw: string): Reply {
    match AfterPrefix(raw, "[reaction:")
    case None => Reply(raw, None)
    case Some(t) =>
      match NamedReaction(t)
      case None => Reply(raw, None)
      case Some((r, rest)) => Reply(Trim(TrimStart(rest)), Some(r))
  }

  /** A send: the outgoing content is built, then `reply` is what the
      session answered to it (its text, or what it threw). Every failure,
      the malformed attachment included, ends as one of the user-safe
      texts. */
  function SendMessage(message: string, attachment: Option<Attachment>, reply: Result<string, Thrown>): Result<Reply, string> {
    match OutgoingContent(message, attachment)
    case Err(e) => Err(FailureText(ClassifySendError(e)))
    case Ok(_) =>
      match reply
      case Ok(raw) => Ok(DecodeReply(raw))
      case Err(e) => Err(FailureText(ClassifySendError(e)))
  }

  lemma {:induction false} AfterPrefixDiffers(s: string, p: string, q: string)
    requires s != [] && p != [] && q != [] && s[0] == q[0] && q[0] != p[0]
    ensures AfterPrefix(s, p) == None
  {
  }

  /** A name and its bracket, then any text: the name is recognised and the
      text after the bracket given back. */
  lemma {:induction false} NamedReactionOf(r: Reaction, rest: string)
    ensures NamedReaction(ReactionName(r) + "]" + rest) == Some((r, rest))
  {
    var t := ReactionName(r) + "]" + rest;
    AppendAssoc(ReactionName(r), "]", rest);
    AfterPrefixOf(ReactionName(r) + "]", rest);
    if r != Heart {
      AfterPrefixDiffers(t, ReactionName(Heart) + "]", ReactionName(r) + "]");
    }
    if r != Heart && r != Laugh {
      AfterPrefixDiffers(t, ReactionName(Laugh) + "]", ReactionName(r) + "]");
    }
    if r == Celebrate {
      AfterPrefixDiffers(t, ReactionName(Surprise) + "]", ReactionName(r) + "]");
    }
  }

  lemma {:induction false} TrimStartIdempotent(s: string)
    ensures TrimStart(TrimStart(s)) == TrimStart(s)
  {
  }

  /** A reply opening with a reaction's tag asks for that reaction, and its
      text is what follows the tag, trimmed. */
  lemma {:induction false} DecodeTagged(r: Reaction, rest: string)
    ensures DecodeReply(Tag(r) + rest) == Reply(Trim(rest), Some(r))
  {
    var t := ReactionName(r) + "]" + rest;
    AppendAssoc("[reaction:", ReactionName(r) + "]", rest);
    assert Tag(r) + rest == "[reaction:" + t;
    AfterPrefixOf("[reaction:", t);
    NamedReactionOf(r, rest);
    TrimStartIdempotent(rest);
    assert DecodeReply("[reaction:" + t) == Reply(Trim(TrimStart(rest)), Some(r));
  }

  lemma {:induction false} SplitAtPrefix(s: string, p: string)
    requires StartsWith(s, p)
    ensures s == p + s[|p|..]
  {
    assert s == s[..|p|] + s[|p|..];
  }

  lemma {:induction false} StartsWithJoined(s: string, p: string, t: string, q: string, rest: string)
    requires s == p + t && t == q + rest
    ensures StartsWith(s, p + q)
  {
    assert s == (p + q) + rest;
    assert s[..|p + q|] == p + q;
  }

  /** A recognised name is followed by its bracket and the text returned. */
  lemma {:induction false} NamedReactionSound(t: string, r: Reaction, rest: string)
    requires NamedReaction(t) == Some((r, rest))
    ensures t == ReactionName(r) + "]" + rest
  {
    AfterPrefixSpec(t, ReactionName(r) + "]");
  }

  /** A reply that asks for a reaction opens with that reaction's tag. */
  lemma {:induction false} DecodeSound(raw: string)
    requires DecodeReply(raw).reaction.Some?
    ensures StartsWith(raw, Tag(DecodeReply(raw).reaction.value))
  {
    AfterPrefixSpec(raw, "[reaction:");
    var t := AfterPrefix(raw, "[reaction:").value;
    var named := NamedReaction(t).value;
    NamedReactionSound(t, named.0, named.1);
    StartsWithJoined(raw, "[reaction:", t, ReactionName(named.0) + "]", named.1);
  }

  /** The reply asks for a reaction exactly when it opens with that
      reaction's tag; a reply that asks for none is shown unchanged. */
  lemma {:induction false} DecodeReaction(raw: string, r: Reaction)
    ensures DecodeReply(raw).reaction == Some(r) <==> StartsWith(raw, Tag(r))
    ensures DecodeReply(raw).reaction == None ==> DecodeReply(raw).text == raw
  {
    if StartsWith(raw, Tag(r)) {
      SplitAtPrefix(raw, Tag(r));
      DecodeTagged(r, raw[|Tag(r)|..]);
    }
    if DecodeReply(raw).reaction.Some? {
      DecodeSound(raw);
    }
  }

  /** Every failed send shows one of the three texts; an attachment whose
      URL carries no payload fails with the technical text whatever the
      session would have answered; otherwise a session's answer is decoded
      and a session's failure classified. */
  lemma {:induction false} SendOutcome(message: string, attachment: Option<Attachment>, reply: Result<string, Thrown>)
    ensures var r := SendMessage(message, attachment, reply);
      (r.Err? ==> exists f :: r.error == FailureText(f))
      && (attachment.Some? && attachment.value.url != [] && AttachmentPart(attachment).None?
          ==> r == Err(FailureText(Technical)))
      && (OutgoingContent(message, attachment).Ok? ==>
            (reply.Ok? ==> r == Ok(DecodeReply(reply.value)))
            && (reply.Err? ==> r == Err(FailureText(ClassifySendError(reply.error)))))
  {
    if attachment.Some? && attachment.value.url != [] && AttachmentPart(attachment).None? {
      InvalidAttachmentIsTechnical();
    }
  }

  /** The error a payload-less attachment raises is classified technical. */
  lemma {:induction false} InvalidAttachmentIsTechnical()
    ensures ClassifySendError(ErrorValue("Invalid data URL for attachment")) == Technical
  {
    InvalidAttachmentLowered();
    InvalidAttachmentWords();
  }

  /** The invalid-attachment message names neither `fetch` nor `network`
      in lower case, nor `API key`. */
  lemma {:induction false} InvalidAttachmentWords()
    ensures !Contains("invalid data url for attachment", "fetch")
    ensures !Contains("invalid data url for attachment", "network")
    ensures !Contains("Invalid data URL for attachment", "API key")
  {
    NoLeadingPair("invalid data url for attachment", "fetch");
    NoLeadingPair("invalid data url for attachment", "network");
    NoLeadingPair("Invalid data URL for attachment", "API key");
  }

  /** The invalid-attachment message in lower case. */
  lemma {:induction false} InvalidAttachmentLowered()
    ensures ToLower("Invalid data URL for attachment") == "invalid data url for attachment"
  {
    ToLowerAppend("Invalid data ", "URL for attachment");
    assert ToLower("Invalid data ") == "invalid data ";
    assert ToLower("URL for attachment") == "url for attachment";
  }

  lemma {:induction false} ContainsLower(s: string, t: string)
    requires Contains(s, t)
    ensures Contains(ToLower(s), ToLower(t))
  {
    var i :| 0 <= i <= |s| && OccursAt(s, t, i);
    assert ToLower(s)[i..i + |t|] == ToLower(t) by {
      forall k | 0 <= k < |t| ensures ToLower(s)[i..i + |t|][k] == ToLower(t)[k] {
        assert s[i..i + |t|][k] == t[k];
      }
    }
    assert OccursAt(ToLower(s), ToLower(t), i);
  }

  /** A message naming `fetch` or `network` in any letter case is a
      connectivity failure, whatever else it says (an `API key` mention
      included). */
  lemma {:induction false} ConnectivityAnyCase(msg: string, word: string)
    requires Contains(msg, word)
    requires ToLower(word) == "fetch" || ToLower(word) == "network"
    ensures ClassifySendError(ErrorValue(msg)) == Connectivity
  {
    ContainsLower(msg, word);
  }

  /** The outgoing content with an attachment: the message as text first,
      then the payload after the URL's first comma under the attachment's
      type. */
  lemma {:induction false} OutgoingShape(message: string, attachment: Option<Attachment>)
    ensures var r := OutgoingContent(message, attachment);
      (r.Err? <==> attachment.Some? && attachment.value.url != [] && AttachmentPart(attachment).None?)
      && (r.Ok? && r.value.WithImage? <==> AttachmentPart(attachment).Some?)
      && (r.Ok? && r.value.PlainText? ==> r.value.message == message)
      && (r.Ok? && r.value.WithImage? ==>
            r.value.parts == [TextPart(message), InlineData(attachment.value.mimeType, SecondCommaField(attachment.value.url).value)])
  {
    AttachmentPartShape(attachment);
  }

  // ---------------------------------------------------------------------
  // Memory extraction

  /** A parsed JSON value (numbers are left abstract as integers). */
  datatype Json =
    | JNull
    | JBool(b: bool)
    | JNumber(n: int)
    | JString(s: string)
    | JArray(items: seq<Json>)
    | JObject(fields: map<string, Json>)

  /** A memory candidate the extractor proposed. */
  datatype Candidate = Candidate(topic: string, detail: string)

  /** An item of the extractor's array that is an object with a string
      `topic` and a string `detail` (empty strings allowed). */
  function AsCandidate(item: Json): Option<Candidate> {
    match item
    case JObject(f) =>
      if "topic" in f && f["topic"].JString? && "detail" in f && f["detail"].JString?
      then Some(Candidate(f["topic"].s, f["detail"].s))
      else None
    case _ => None
  }

  /** The candidates among `items`, in order. */
  function Candidates(items: seq<Json>): (r: seq<Candidate>)
    ensures |r| <= |items|
  {
    if items == [] then []
    else (match AsCandidate(items[0]) case Some(c) => [c] case None => []) + Candidates(items[1..])
  }

  /** The memory candidates of one exchange. A blank user text asks nothing
      of the extractor; `answer` is the extractor's parsed answer, or what
      the request or the parsing threw. Failures and answers that are not
      arrays give no candidates. */
  function ExtractMemories(userText: string, answer: Result<Json, Thrown>): seq<Candidate> {
    if IsBlank(userText) then []
    else match answer
      case Ok(JArray(items)) => Candidates(items)
      case _ => []
  }

  lemma {:induction false} CandidatesAppend(xs: seq<Json>, ys: seq<Json>)
    ensures Candidates(xs + ys) == Candidates(xs) + Candidates(ys)
    decreases |xs|
  {
    if xs == [] {
      assert xs + ys == ys;
    } else {
      assert (xs + ys)[0] == xs[0];
      assert (xs + ys)[1..] == xs[1..] + ys;
      CandidatesAppend(xs[1..], ys);
    }
  }

  /** The candidates are exactly the well-formed items, each kept with its
      own topic and detail. */
  lemma {:induction false} CandidatesMembers(items: seq<Json>)
    ensures forall c :: c in Candidates(items) <==> exists i :: 0 <= i < |items| && AsCandidate(items[i]) == Some(c)
    decreases |items|
  {
    if items != [] {
      CandidatesMembers(items[1..]);
      forall c ensures c in Candidates(items) <==> exists i :: 0 <= i < |items| && AsCandidate(items[i]) == Some(c) {
        if c in Candidates(items[1..]) {
          var i :| 0 <= i < |items[1..]| && AsCandidate(items[1..][i]) == Some(c);
          assert AsCandidate(items[i + 1]) == Some(c);
        }
        if exists i :: 0 <= i < |items| && AsCandidate(items[i]) == Some(c) {
          var i :| 0 <= i < |items| && AsCandidate(items[i]) == Some(c);
          if i > 0 {
            assert AsCandidate(items[1..][i - 1]) == Some(c);
          }
        }
      }
    }
  }

  /** No candidates for a blank text, a failure or an answer that is not an
      array; an array gives its well-formed items, at most as many as it
      has. */
  lemma {:induction false} ExtractOutcome(userText: string, answer: Result<Json, Thrown>)
    ensures IsBlank(userText) || answer.Err? || !answer.value.JArray? ==> ExtractMemories(userText, answer) == []
    ensures !IsBlank(userText) && answer.Ok? && answer.value.JArray? ==>
      var r := ExtractMemories(userText, answer);
      |r| <= |answer.value.items|
      && forall c :: c in r <==> exists i :: 0 <= i < |answer.value.items| && AsCandidate(answer.value.items[i]) == Some(c)
  {
    if answer.Ok? && answer.value.JArray? {
      CandidatesMembers(answer.value.items);
    }
  }
}
