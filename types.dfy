/** The application's records: messages, memories, users and notifications,
    with the application's closed string unions as datatypes. */
module Types {
  import opened Wrappers

  /** The persona's mood; each (user, mood) pair is its own conversation. */
  datatype Mood = Cheerful | Thoughtful | Playful

  function MoodName(m: Mood): string {
    match m
    case Cheerful => "Cheerful"
    case Thoughtful => "Thoughtful"
    case Playful => "Playful"
  }

  datatype Sender = FromUser | FromAi

  /** An attachment; `url` is a data URL (`data:<type>;base64,<payload>`). */
  datatype Attachment = Attachment(name: string, mimeType: string, url: string)

  datatype ChatMessage = ChatMessage(sender: Sender, text: string, attachment: Option<Attachment>, mood: Mood)

  /** A long-term fact about a user, extracted from what they wrote. */
  datatype Memory = Memory(id: string, topic: string, detail: string, timestamp: int)

  /** The animation cue a reply may carry. */
  datatype Reaction = Heart | Laugh | Surprise | Celebrate

  function ReactionName(r: Reaction): string {
    match r
    case Heart => "HEART"
    case Laugh => "LAUGH"
    case Surprise => "SURPRISE"
    case Celebrate => "CELEBRATE"
  }

  datatype UserRole = Admin | Member
  datatype UserStatus = Active | Away | Inactive

  /** The strings the two unions stand for. */
  function RoleName(r: UserRole): string {
    match r
    case Admin => "admin"
    case Member => "user"
  }

  function StatusName(s: UserStatus): string {
    match s
    case Active => "active"
    case Away => "away"
    case Inactive => "inactive"
  }

  datatype User = User(
    id: int, name: string, email: string, role: UserRole,
    avatarUrl: string, lastActive: string, status: UserStatus)

  datatype NotificationKind = Info | Success | Warning | Error

  datatype Notification = Notification(id: int, message: string, kind: NotificationKind)

  /** What a failing call throws: an `Error` object, which carries a message,
      or any other value. */
  datatype Thrown = ErrorValue(message: string) | NonError

  /** The text a `catch` shows for what was thrown: an `Error`'s own
      message, or `fallback` for any other value. */
  function MessageOr(e: Thrown, fallback: string): (r: string)
    ensures e.ErrorValue? ==> r == e.message
    ensures e.NonError? ==> r == fallback
  {
    match e
    case ErrorValue(msg) => msg
    case NonError => fallback
  }

  /** The handle of a conversation session opened with the generative service. */
  datatype ChatHandle = ChatHandle(session: nat)

  /** Affection levels, counted in half points. The application's level moves
      by 2 and by 0.5 only, so twice the level is always a whole number:
      15 is 30 here and 100 is 200. */
  type HalfPoints = int

  const AffectionFloor: HalfPoints := 30
  const AffectionCap: HalfPoints := 200

  predicate InAffectionRange(a: HalfPoints) {
    AffectionFloor <= a <= AffectionCap
  }
}
