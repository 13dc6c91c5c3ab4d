/** The conversation view: one user's conversation with the persona in the
    current mood. Its state changes by steps: a load when the view opens or
    the mood changes (started, then finished when the transcript and the
    session arrive), a guarded send (accepted, then delivered when the
    reply or the failure arrives), the idle decay of affection and the
    clearing of a shown reaction. Affection is counted in half points and
    is written to the storage under the (user, mood) key whenever it
    changes. */
module ChatView {
  import opened Wrappers
  import opened Types
  import opened Text
  import opened Persona
  import opened HistoryCodec
  import opened Gateway
  import opened MemoryStore

  // ---------------------------------------------------------------------
  // Affection arithmetic

  /** An accepted send raises affection by 2 points, up to the cap. */
  function Bump(a: HalfPoints): (r: HalfPoints)
    ensures r <= AffectionCap && r <= a + 4
    ensures r == a + 4 || r == AffectionCap
  {
    if a + 4 < AffectionCap then a + 4 else AffectionCap
  }

  /** A decay tick lowers affection by half a point, never below the floor. */
  function Decay(a: HalfPoints): (r: HalfPoints)
    ensures r >= AffectionFloor && r >= a - 1
    ensures r == a - 1 || r == AffectionFloor
  {
    if a - 1 > AffectionFloor then a - 1 else AffectionFloor
  }

  /** The moods in which affection decays while the user is idle. */
  predicate DecaysIn(m: Mood) {
    m == Thoughtful || m == Playful
  }

  /** One tick of the idle timer: it runs only in a decaying mood and only
      while affection is above the floor. */
  function Tick(m: Mood, a: HalfPoints): (r: HalfPoints)
    ensures r <= a
    ensures !DecaysIn(m) ==> r == a
  {
    if DecaysIn(m) && a > AffectionFloor then Decay(a) else a
  }

  /** Affection after `n` accepted sends with no decay in between. */
  function AfterSends(a: HalfPoints, n: nat): HalfPoints {
    if n == 0 then a else Bump(AfterSends(a, n - 1))
  }

  /** Affection after `n` idle ticks in mood `m`. */
  function AfterTicks(m: Mood, a: HalfPoints, n: nat): HalfPoints {
    if n == 0 then a else Tick(m, AfterTicks(m, a, n - 1))
  }

  /** From any level up to the cap, `n` sends raise affection by 2 points
      each until it reaches the cap; from the default of 15 points that is
      the smaller of 15 + 2n and 100. */
  lemma {:induction false} SendsClosedForm(a: HalfPoints, n: nat)
    requires a <= AffectionCap
    ensures AfterSends(a, n) == if a + 4 * n < AffectionCap then a + 4 * n else AffectionCap
    decreases n
  {
    if n > 0 {
      SendsClosedForm(a, n - 1);
    }
  }

  /** Idle ticks never take affection below the floor: in a decaying mood
      a level above the floor falls by half a point a tick until it reaches
      the floor, and any other level, as any level in the cheerful mood,
      stays as it is. */
  lemma {:induction false} TicksClosedForm(m: Mood, a: HalfPoints, n: nat)
    ensures AfterTicks(m, a, n) ==
      if !DecaysIn(m) || a <= AffectionFloor then a
      else if a - n > AffectionFloor then a - n else AffectionFloor
    decreases n
  {
    if n > 0 {
      TicksClosedForm(m, a, n - 1);
    }
  }

  /** Sends and ticks keep a level inside the range from 15 to 100 points. */
  lemma StepsKeepRange(m: Mood, a: HalfPoints)
    requires InAffectionRange(a)
    ensures InAffectionRange(Bump(a)) && InAffectionRange(Tick(m, a))
  {
  }

  // ---------------------------------------------------------------------
  // Texts shown for failures

  /** The text a failed load shows: an `Error` mentioning `API_KEY` is
      replaced by the configuration notice, any other `Error` shows its own
      message, and a thrown non-`Error` shows the generic notice. */
  function LoadErrorText(e: Thrown): (r: string)
    ensures e.ErrorValue? && !MentionsApiKey(e) ==> r == e.message
  {
    match e
    case ErrorValue(msg) =>
      if Contains(msg, "API_KEY") then
        "There seems to be a configuration issue. I'm unable to connect to my core services right now."
      else msg
    case NonError => "An unknown error occurred during initialization."
  }

  /** The text of the message a failed send appends: the `Error`'s own
      message, or the generic apology for a thrown non-`Error`. */
  function CatchText(e: Thrown): string {
    MessageOr(e, "An unexpected error occurred. Please try again.")
  }

  /** What the send call resolves to or throws: the decoded reply, or an
      `Error` carrying the user-safe text. */
  function Sent(message: string, attachment: Option<Attachment>, reply: Result<string, Thrown>): (r: Result<Reply, Thrown>)
    ensures r.Err? ==> r.error.ErrorValue?
  {
    match SendMessage(message, attachment, reply)
    case Ok(decoded) => Ok(decoded)
    case Err(text) => Err(ErrorValue(text))
  }

  /** A failed send is shown with one of the three user-safe texts, never
      the service's own message; a successful one with the decoded reply. */
  lemma SentShown(message: string, attachment: Option<Attachment>, reply: Result<string, Thrown>)
    ensures var r := Sent(message, attachment, reply);
      (r.Err? ==> exists f :: CatchText(r.error) == FailureText(f))
      && (r.Ok? ==> OutgoingContent(message, attachment).Ok? && reply.Ok? && r.value == DecodeReply(reply.value))
  {
    SendOutcome(message, attachment, reply);
  }

  /** A session refused for a missing or invalid API key shows the
      configuration notice, not the key error's own message. */
  lemma KeyProblemShown(msg: string)
    requires MentionsApiKey(ErrorValue(msg))
    ensures LoadErrorText(ErrorValue(StartFailureMessage(KeyProblem(msg))))
      == "There seems to be a configuration issue. I'm unable to connect to my core services right now."
  {
  }

  /** How a load ends: with a session and the loaded transcript, or with
      the text of its failure. */
  datatype LoadOutcome = Opened(session: Session, transcript: seq<ChatMessage>) | LoadFailed(text: string)

  /** What opening a session resolves to or throws: the session, or the
      `Error` carrying the message of the failure. */
  function Started(x: PersonaTexts, load: Load, userName: string, h: seq<ChatMessage>,
                   memories: seq<Memory>, outcome: Result<ChatHandle, Thrown>): (r: Result<Session, Thrown>)
    ensures r.Ok? <==> outcome.Ok?
    ensures r.Err? ==> r.error.ErrorValue?
  {
    match InitializeChat(x, load.mood, load.affection, userName, h, memories, outcome)
    case Ok(s) => Ok(s)
    case Err(f) => Err(ErrorValue(StartFailureMessage(f)))
  }

  /** The end of a load, given what the transcript provider and the
      opening of the session returned or threw (the session is opened only
      once the transcript is there): whatever was thrown is shown through
      `LoadErrorText`. */
  function Ending(history: Result<seq<ChatMessage>, Thrown>, started: Result<Session, Thrown>): (r: LoadOutcome)
    ensures r.Opened? <==> history.Ok? && started.Ok?
    ensures r.Opened? ==> r.transcript == history.value && r.session == started.value
  {
    match history
    case Err(e) => LoadFailed(LoadErrorText(e))
    case Ok(h) =>
      match started
      case Ok(s) => Opened(s, h)
      case Err(e) => LoadFailed(LoadErrorText(e))
  }

  /** A failed load shows the text of the first failure: the transcript
      provider's when it threw, else the session's. */
  lemma EndingFailed(history: Result<seq<ChatMessage>, Thrown>, started: Result<Session, Thrown>)
    ensures history.Err? ==> Ending(history, started) == LoadFailed(LoadErrorText(history.error))
    ensures history.Ok? && started.Err? ==> Ending(history, started) == LoadFailed(LoadErrorText(started.error))
  {
  }

  /** How many memories a session is opened with. */
  const RecalledMemories := 5

  /** A whole load started with `load` for the user `userId` named
      `userName`: the transcript is fetched first; when that succeeds the
      user's five most recent memories are read from the memory entries
      `entries`, and the session is opened for the load's mood and
      affection, the user's name, the loaded transcript and those
      memories. */
  function LoadOutcomeOf(x: PersonaTexts, load: Load, userId: int, userName: string,
                         history: Result<seq<ChatMessage>, Thrown>, entries: map<int, Stored>,
                         outcome: Result<ChatHandle, Thrown>): (r: LoadOutcome)
    ensures r.Opened? <==> history.Ok? && outcome.Ok?
    ensures r.Opened? ==> r.transcript == history.value && r.session.handle == outcome.value
    ensures history.Err? ==> r == LoadFailed(LoadErrorText(history.error))
  {
    match history
    case Err(e) => LoadFailed(LoadErrorText(e))
    case Ok(h) =>
      var memories := GetRecentMemories(entries, userId, RecalledMemories);
      Ending(history, Started(x, load, userName, h, memories, outcome))
  }

  /** A load whose transcript arrives and whose session opens has the
      session opened with the instruction and greeting for the load's mood
      and affection, the user's name and five most recent memories, and the
      converted transcript. */
  lemma LoadOpens(x: PersonaTexts, load: Load, userId: int, userName: string, h: seq<ChatMessage>,
                  entries: map<int, Stored>, handle: ChatHandle)
    ensures LoadOutcomeOf(x, load, userId, userName, Ok(h), entries, Ok(handle))
      == Opened(Session(handle,
                        SystemInstruction(x, load.mood, load.affection, userName, GetRecentMemories(entries, userId, RecalledMemories)),
                        ConvertHistory(h), Greeting(load.affection, userName)), h)
  {
    InitializeChatOpens(x, load.mood, load.affection, userName, h, GetRecentMemories(entries, userId, RecalledMemories), handle);
  }

  /** What is remembered reaches later sessions: when a user has at most
      five memories stored, a load that opens a session hands all of them
      to the instruction, latest first. */
  lemma LoadRecallsStored(x: PersonaTexts, load: Load, userId: int, userName: string, h: seq<ChatMessage>,
                          entries: map<int, Stored>, handle: ChatHandle)
    requires |MemoriesIn(entries, userId)| <= RecalledMemories
    ensures var memories := GetRecentMemories(entries, userId, RecalledMemories);
      multiset(memories) == multiset(MemoriesIn(entries, userId)) && NonIncreasing(memories)
      && LoadOutcomeOf(x, load, userId, userName, Ok(h), entries, Ok(handle)).session.instruction
         == SystemInstruction(x, load.mood, load.affection, userName, memories)
  {
    LoadOpens(x, load, userId, userName, h, entries, handle);
    RecentAllWhenFew(entries, userId, RecalledMemories);
  }

  /** A load whose session is refused for its API key shows the
      configuration notice. */
  lemma LoadKeyProblem(x: PersonaTexts, load: Load, userId: int, userName: string, h: seq<ChatMessage>,
                       entries: map<int, Stored>, e: Thrown)
    requires MentionsApiKey(e)
    ensures LoadOutcomeOf(x, load, userId, userName, Ok(h), entries, Err(e))
      == LoadFailed("There seems to be a configuration issue. I'm unable to connect to my core services right now.")
  {
    KeyProblemShown(e.message);
  }

  /** The persona message that ends a send: the reply's text, or the text
      of what the send threw, in the mood the send was made in. */
  function ReplyMessage(sent: Result<Reply, Thrown>, m: Mood): (r: ChatMessage)
    ensures r.sender == FromAi && r.mood == m && r.attachment.None?
    ensures sent.Ok? ==> r.text == sent.value.text
    ensures sent.Err? && sent.error.ErrorValue? ==> r.text == sent.error.message
  {
    ChatMessage(FromAi, if sent.Ok? then sent.value.text else CatchText(sent.error), None, m)
  }

  // ---------------------------------------------------------------------
  // The controller

  /** A load in progress: the mood and the affection it was started with. */
  datatype Load = Load(mood: Mood, affection: HalfPoints)

  /** A send in progress: what was sent, in which mood, and the message
      the transcript received for it. */
  datatype Pending = Pending(text: string, attachment: Option<Attachment>, mood: Mood, userMessage: ChatMessage)

  /** The stored affection of a (user, mood) pair; 15 points when nothing
      is stored. */
  function StoredAffection(saved: map<(int, Mood), HalfPoints>, userId: int, m: Mood): (a: HalfPoints)
    ensures (userId, m) !in saved ==> a == AffectionFloor
    ensures (userId, m) in saved ==> a == saved[(userId, m)]
  {
    if (userId, m) in saved then saved[(userId, m)] else AffectionFloor
  }

  /** The send guard: a message with text or an attachment, while nothing
      is loading or being sent, and with an open session. */
  predicate SendAllowed(text: string, attachment: Option<Attachment>, isLoading: bool, isSending: bool, hasChat: bool) {
    !(IsBlank(text) && attachment.None?) && !isLoading && !isSending && hasChat
  }

  class ChatSession {
    const userId: int
    const userName: string
    var mood: Mood
    var messages: seq<ChatMessage>
    var affection: HalfPoints
    var isLoading: bool
    var isSending: bool
    var chat: Option<Session>
    var error: Option<string>
    var activeReaction: Option<Reaction>
    var initialMessage: string
    /** The storage's affection entries, by (user, mood). */
    var saved: map<(int, Mood), HalfPoints>

    /** The current affection is what the storage holds for the current
        (user, mood) key. */
    predicate Persisted()
      reads this
    {
      (userId, mood) in saved && saved[(userId, mood)] == affection
    }

    /** The current and every stored level lie between 15 and 100 points. */
    predicate InRange()
      reads this
    {
      InAffectionRange(affection) && forall k :: k in saved ==> InAffectionRange(saved[k])
    }

    /** The view as it opens, before its first load: cheerful, empty,
        loading, at 15 points. */
    constructor (userId: int, userName: string, saved: map<(int, Mood), HalfPoints>)
      ensures this.userId == userId && this.userName == userName && this.saved == saved
      ensures mood == Cheerful && messages == [] && affection == AffectionFloor
      ensures isLoading && !isSending && chat.None? && error.None? && activeReaction.None? && initialMessage == []
    {
      this.userId := userId;
      this.userName := userName;
      this.saved := saved;
      mood := Cheerful;
      messages := [];
      affection := AffectionFloor;
      isLoading := true;
      isSending := false;
      chat := None;
      error := None;
      activeReaction := None;
      initialMessage := [];
    }

    /** The start of a load (on opening and on every mood change): loading
        is set and the error cleared, affection becomes the stored level of
        the (user, mood) key, or 15 points, and is written back under that
        key. */
    method StartLoad() returns (load: Load)
      modifies this`isLoading, this`error, this`affection, this`saved
      ensures load == Load(mood, affection)
      ensures affection == StoredAffection(old(saved), userId, mood)
      ensures saved == old(saved)[(userId, mood) := affection]
      ensures isLoading && error.None?
      ensures Persisted()
      ensures old(forall k :: k in saved ==> InAffectionRange(saved[k])) ==> InRange()
    {
      isLoading := true;
      error := None;
      affection := StoredAffection(saved, userId, mood);
      saved := saved[(userId, mood) := affection];
      load := Load(mood, affection);
    }

    /** The end of a load. `outcome` is how the load ended: `Ending` of
        what the transcript provider and the opening of the session
        returned or threw (`LoadOutcomeOf` for the whole load). On success
        the session is kept, its greeting becomes the initial message and
        the transcript becomes the loaded history. On failure the error is
        set and the transcript becomes the one persona message carrying it,
        in the load's mood; the previous session is kept. Loading ends
        either way. */
    method FinishLoad(load: Load, outcome: LoadOutcome)
      modifies this`chat, this`initialMessage, this`messages, this`error, this`isLoading
      ensures outcome.Opened? ==>
        chat == Some(outcome.session) && initialMessage == outcome.session.greeting
        && messages == outcome.transcript && error == old(error)
      ensures outcome.LoadFailed? ==>
        error == Some(outcome.text) && messages == [ChatMessage(FromAi, outcome.text, None, load.mood)]
        && chat == old(chat) && initialMessage == old(initialMessage)
      ensures !isLoading
    {
      match outcome {
        case Opened(s, h) =>
          chat := Some(s);
          initialMessage := s.greeting;
          messages := h;
        case LoadFailed(text) =>
          error := Some(text);
          messages := [ChatMessage(FromAi, text, None, load.mood)];
      }
      isLoading := false;
    }

    /** A send. When the guard refuses it nothing changes. Otherwise the
        user's message is appended, sending is set, affection is raised by
        2 points up to the cap and written under the current key, and the
        send in progress is returned. */
    method Send(text: string, attachment: Option<Attachment>) returns (pending: Option<Pending>)
      modifies this`messages, this`isSending, this`affection, this`saved
      ensures !SendAllowed(text, attachment, old(isLoading), old(isSending), old(chat).Some?) ==>
        pending.None? && unchanged(this)
      ensures SendAllowed(text, attachment, old(isLoading), old(isSending), old(chat).Some?) ==>
        var userMessage := ChatMessage(FromUser, text, attachment, old(mood));
        pending == Some(Pending(text, attachment, old(mood), userMessage))
        && messages == old(messages) + [userMessage]
        && isSending
        && affection == Bump(old(affection))
        && saved == old(saved)[(userId, mood) := affection]
      ensures Persisted() || !SendAllowed(text, attachment, old(isLoading), old(isSending), old(chat).Some?)
      ensures old(InRange()) ==> InRange()
    {
      if !SendAllowed(text, attachment, isLoading, isSending, chat.Some?) {
        return None;
      }
      var userMessage := ChatMessage(FromUser, text, attachment, mood);
      messages := messages + [userMessage];
      isSending := true;
      affection := Bump(affection);
      saved := saved[(userId, mood) := affection];
      pending := Some(Pending(text, attachment, mood, userMessage));
    }

    /** The send call settles with `sent`: a reaction carried by a
        successful reply becomes the active reaction at once, before the
        reply's text is shown. */
    method Answered(sent: Result<Reply, Thrown>)
      modifies this`activeReaction
      ensures activeReaction == if sent.Ok? && sent.value.reaction.Some? then sent.value.reaction else old(activeReaction)
    {
      if sent.Ok? && sent.value.reaction.Some? {
        activeReaction := sent.value.reaction;
      }
    }

    /** The end of a send, after `Answered` (and, on success, after the
        reply's delay): the reply's text, or the text of what the send
        threw, is appended as a persona message in the mood of the send,
        and sending ends. The transcript appended to is the current one,
        whatever happened since the send. */
    method Deliver(p: Pending, sent: Result<Reply, Thrown>)
      modifies this`messages, this`isSending
      ensures messages == old(messages) + [ReplyMessage(sent, p.mood)]
      ensures !isSending
    {
      messages := messages + [ReplyMessage(sent, p.mood)];
      isSending := false;
    }

    /** The memory step of a successful send, which runs on its own once the
        extractor answers (`answer` is its parsed answer): possibly after
        later sends, loads and deliveries, and in any order relative to the
        memory steps of other sends. The facts the extractor found in the
        user's text are stored with `store.ProcessAndStore` against the
        memories stored at that moment; `idOf` and `timeOf` are the ids and
        clock readings given to the admitted ones. The view's own state is
        not touched. */
    method StoreExtracted(store: Store, p: Pending, answer: Result<Json, Thrown>,
                          idOf: nat -> string, timeOf: nat -> int, writable: bool)
      modifies store
      ensures store.entries == Remembered(old(store.entries), userId, ExtractMemories(p.text, answer), idOf, timeOf, writable)
    {
      store.ProcessAndStore(userId, ExtractMemories(p.text, answer), idOf, timeOf, writable);
    }

    /** One tick of the idle timer: in a decaying mood, above the floor,
        affection falls by half a point (not below 15) and is written under
        the current key; otherwise nothing changes. */
    method DecayTick()
      modifies this`affection, this`saved
      ensures affection == Tick(old(mood), old(affection))
      ensures affection == old(affection) ==> saved == old(saved)
      ensures affection != old(affection) ==> saved == old(saved)[(userId, mood) := affection]
      ensures old(Persisted()) ==> Persisted()
      ensures old(InRange()) ==> InRange()
    {
      if DecaysIn(mood) && affection > AffectionFloor {
        affection := Decay(affection);
        saved := saved[(userId, mood) := affection];
      }
    }

    /** Choosing a mood: a different mood becomes current and starts a
        load; choosing the current mood changes nothing. */
    method ChangeMood(m: Mood) returns (load: Option<Load>)
      modifies this`mood, this`isLoading, this`error, this`affection, this`saved
      ensures m == old(mood) ==> load.None? && unchanged(this)
      ensures m != old(mood) ==>
        mood == m && load == Some(Load(m, affection))
        && affection == StoredAffection(old(saved), userId, m)
        && saved == old(saved)[(userId, m) := affection]
        && isLoading && error.None?
      ensures m != old(mood) ==> Persisted()
    {
      if m == mood {
        return None;
      }
      mood := m;
      var started := StartLoad();
      load := Some(started);
    }

    /** The end of the reaction animation. */
    method ClearReaction()
      modifies this`activeReaction
      ensures activeReaction.None?
    {
      activeReaction := None;
    }
  }
}
