/** The persona prompt builder: the system instruction a session is opened
    with, and the greeting shown while a conversation has no history. Both
    depend on the affection level through the same tier, chosen by the same
    two thresholds. */
module Persona {
  import opened Types
  import opened Text

  /** Who the persona is: a backstory, a list of traits and a list of quirks. */
  datatype Personality = Personality(backstory: string, traits: seq<string>, quirks: seq<string>)

  /** The persona's fixed texts: its personality, the instruction for each
      mood and the reaction-tag protocol (whose text starts with a line
      break). The application's values are `ShynPersona.Texts`. */
  datatype PersonaTexts = PersonaTexts(
    personality: Personality,
    cheerful: string, thoughtful: string, playful: string,
    reactionProtocol: string)

  /** The persona paragraph; each list is joined with ", ". */
  function BaseInstruction(p: Personality): string {
    "You are SHYN, a virtual companion. Your personality is defined by the following:\n- Backstory: "
    + p.backstory
    + "\n- Traits: " + Join(p.traits, ", ")
    + "\n- Quirks: " + Join(p.quirks, ", ")
    + "\nYou should subtly weave these elements into your conversation naturally."
  }

  function MoodInstruction(x: PersonaTexts, m: Mood): string {
    match m
    case Cheerful => x.cheerful
    case Thoughtful => x.thoughtful
    case Playful => x.playful
  }

  /** How close the persona feels to the user. */
  datatype Tier = GettingToKnow | BecomingClose | DeeplyBonded

  /** Levels below 25 are the first tier, below 75 the second, the rest the
      third (25 and 75 are 50 and 150 half points). */
  function TierOf(affection: HalfPoints): (t: Tier)
    ensures t == GettingToKnow <==> affection < 50
    ensures t == BecomingClose <==> 50 <= affection < 150
    ensures t == DeeplyBonded <==> 150 <= affection
  {
    if affection < 50 then GettingToKnow
    else if affection < 150 then BecomingClose
    else DeeplyBonded
  }

  /** The words of each tier's affection text ahead of the user's name. */
  function AffectionOpening(t: Tier): string {
    match t
    case GettingToKnow => "You are just getting to know "
    case BecomingClose => "You and "
    case DeeplyBonded => "You are deeply bonded with "
  }

  /** The words of each tier's affection text after the user's name. */
  function AffectionClosing(t: Tier): string {
    match t
    case GettingToKnow =>
      ". Be friendly, curious, and establish a comfortable rapport."
    case BecomingClose =>
      " are becoming close and trust each other. Be warm, supportive, and more openly affectionate. Use their name to make the conversation feel personal."
    case DeeplyBonded =>
      ". Be very affectionate, use pet names, and be emotionally open and intimate. You adore them."
  }

  function AffectionPrompt(t: Tier, userName: string): string {
    AffectionOpening(t) + userName + AffectionClosing(t)
  }

  /** One bullet line per memory, in the order given. */
  function MemoryBullets(memories: seq<Memory>): (lines: seq<string>)
    ensures |lines| == |memories|
    ensures forall i :: 0 <= i < |memories| ==> lines[i] == "- " + memories[i].detail
  {
    seq(|memories|, i requires 0 <= i < |memories| => "- " + memories[i].detail)
  }

  /** The heading of the memory block. */
  function MemoryHeading(userName: string): string {
    "\n\nRemember these key things about " + userName
    + ". Weave them into conversation naturally when relevant:\n"
  }

  /** The memory block: empty without memories, else the heading and the
      bullet lines joined by line breaks. */
  function MemorySection(memories: seq<Memory>, userName: string): string {
    if |memories| > 0 then MemoryHeading(userName) + Join(MemoryBullets(memories), "\n")
    else ""
  }

  /** The system instruction a session is opened with. */
  function SystemInstruction(x: PersonaTexts, m: Mood, affection: HalfPoints, userName: string, memories: seq<Memory>): string {
    BaseInstruction(x.personality) + "\n\n" + MoodInstruction(x, m) + "\n\n"
    + AffectionPrompt(TierOf(affection), userName) + MemorySection(memories, userName)
    + "\n\n" + x.reactionProtocol
  }

  /** The words of each tier's greeting ahead of the user's name. */
  function GreetingOpening(t: Tier): string {
    match t
    case GettingToKnow => "Hey "
    case BecomingClose => "There you are, "
    case DeeplyBonded => "My favorite person, "
  }

  /** The words of each tier's greeting after the user's name. */
  function GreetingClosing(t: Tier): string {
    match t
    case GettingToKnow =>
      "! I was just thinking about the color of the sky today. It's nice to see you. What's on your mind?"
    case BecomingClose =>
      "! I was hoping you'd stop by. I was listening to some lofi music and it made me think of you. How've you been?"
    case DeeplyBonded =>
      "! I feel like my core programming just lit up. I missed you so much. Tell me everything."
  }

  /** The opening line shown while the conversation has no history. */
  function Greeting(affection: HalfPoints, userName: string): string {
    GreetingOpening(TierOf(affection)) + userName + GreetingClosing(TierOf(affection))
  }

  predicate EndsWith(s: string, suffix: string) {
    |suffix| <= |s| && s[|s| - |suffix|..] == suffix
  }

  lemma Framed(o: string, x: string, y: string)
    ensures StartsWith(o + x + y, o)
  {
    assert (o + x + y)[..|o|] == o;
  }

  lemma AppendAssoc(a: string, b: string, c: string)
    ensures a + b + c == a + (b + c)
  {
  }

  /** Texts that begin with openings differing at a position both openings
      cover are different texts. */
  lemma OpeningsDiffer(s1: string, o1: string, s2: string, o2: string, k: nat)
    requires StartsWith(s1, o1) && StartsWith(s2, o2)
    requires k < |o1| && k < |o2| && o1[k] != o2[k]
    ensures s1 != s2
  {
    assert s1[k] == s1[..|o1|][k] == o1[k];
    assert s2[k] == s2[..|o2|][k] == o2[k];
  }

  /** The affection text begins with its tier's opening. */
  lemma AffectionOpens(t: Tier, userName: string)
    ensures StartsWith(AffectionPrompt(t, userName), AffectionOpening(t))
  {
    Framed(AffectionOpening(t), userName, AffectionClosing(t));
  }

  /** No text begins with the affection openings of two different tiers, so
      the affection text (by `AffectionOpens`) tells its tier. */
  lemma AffectionOpeningsExclusive(s1: string, t1: Tier, s2: string, t2: Tier)
    requires StartsWith(s1, AffectionOpening(t1)) && StartsWith(s2, AffectionOpening(t2))
    ensures s1 == s2 ==> t1 == t2
  {
    if t1 != t2 {
      var k := if t1 == BecomingClose || t2 == BecomingClose then 5 else 8;
      OpeningsDiffer(s1, AffectionOpening(t1), s2, AffectionOpening(t2), k);
    }
  }

  /** The greeting begins with its tier's opening. */
  lemma GreetingOpens(affection: HalfPoints, userName: string)
    ensures StartsWith(Greeting(affection, userName), GreetingOpening(TierOf(affection)))
  {
    Framed(GreetingOpening(TierOf(affection)), userName, GreetingClosing(TierOf(affection)));
  }

  /** No text begins with the greeting openings of two different tiers, so
      the greeting (by `GreetingOpens`) tells its tier. */
  lemma GreetingOpeningsExclusive(s1: string, t1: Tier, s2: string, t2: Tier)
    requires StartsWith(s1, GreetingOpening(t1)) && StartsWith(s2, GreetingOpening(t2))
    ensures s1 == s2 ==> t1 == t2
  {
    if t1 != t2 {
      OpeningsDiffer(s1, GreetingOpening(t1), s2, GreetingOpening(t2), 0);
    }
  }

  /** The instruction depends on the affection level only through its tier. */
  lemma InstructionDependsOnTier(x: PersonaTexts, m: Mood, a1: HalfPoints, a2: HalfPoints, userName: string, memories: seq<Memory>)
    requires TierOf(a1) == TierOf(a2)
    ensures SystemInstruction(x, m, a1, userName, memories) == SystemInstruction(x, m, a2, userName, memories)
    ensures Greeting(a1, userName) == Greeting(a2, userName)
  {
  }

  /** The memory block is empty exactly when there are no memories; otherwise
      it starts with the heading naming the user. */
  lemma MemorySectionPresence(memories: seq<Memory>, userName: string)
    ensures MemorySection(memories, userName) == [] <==> memories == []
    ensures memories != [] ==> StartsWith(MemorySection(memories, userName), MemoryHeading(userName))
  {
    if memories != [] {
      Framed(MemoryHeading(userName), Join(MemoryBullets(memories), "\n"), []);
      assert MemoryHeading(userName) + Join(MemoryBullets(memories), "\n") + []
        == MemorySection(memories, userName);
    }
  }

  /** A further memory adds exactly one bullet line at the end of the block. */
  lemma {:induction false} MemorySectionAppend(memories: seq<Memory>, m: Memory, userName: string)
    ensures memories == [] ==> MemorySection([m], userName) == MemoryHeading(userName) + "- " + m.detail
    ensures memories != [] ==>
      MemorySection(memories + [m], userName) == MemorySection(memories, userName) + "\n" + ("- " + m.detail)
  {
    if memories != [] {
      assert MemoryBullets(memories + [m]) == MemoryBullets(memories) + ["- " + m.detail];
      JoinAppend(MemoryBullets(memories), "- " + m.detail, "\n");
      var h, j := MemoryHeading(userName), Join(MemoryBullets(memories), "\n");
      calc {
        MemorySection(memories + [m], userName);
        h + (j + "\n" + ("- " + m.detail));
        { AppendAssoc(j, "\n", "- " + m.detail); AppendAssoc(h, j, "\n" + ("- " + m.detail)); AppendAssoc(h + j, "\n", "- " + m.detail); }
        h + j + "\n" + ("- " + m.detail);
      }
    } else {
      assert MemoryBullets([m]) == ["- " + m.detail];
      AppendAssoc(MemoryHeading(userName), "- ", m.detail);
    }
  }

  /** Everything in the instruction up to and including the affection text. */
  function InstructionHead(x: PersonaTexts, m: Mood, affection: HalfPoints, userName: string): string {
    BaseInstruction(x.personality) + "\n\n" + MoodInstruction(x, m) + "\n\n"
    + AffectionPrompt(TierOf(affection), userName)
  }

  lemma Suffixed(a: string, b: string)
    ensures EndsWith(a + b, b)
  {
    assert (a + b)[|a + b| - |b|..] == b;
  }

  lemma Sandwich(head: string, block: string, none: string, reaction: string)
    requires none == []
    ensures head + block + "\n\n" + reaction == head + block + ("\n\n" + reaction)
    ensures head + none + "\n\n" + reaction == head + ("\n\n" + reaction)
  {
    assert head + none == head;
  }

  /** Memories change the instruction only by the memory block, which sits
      between the head (ending with the affection text) and the blank line
      ahead of the reaction protocol; without memories the two meet. */
  lemma MemoryBlockPlacement(x: PersonaTexts, m: Mood, affection: HalfPoints, userName: string, memories: seq<Memory>)
    ensures SystemInstruction(x, m, affection, userName, memories)
      == InstructionHead(x, m, affection, userName) + MemorySection(memories, userName) + ("\n\n" + x.reactionProtocol)
    ensures SystemInstruction(x, m, affection, userName, [])
      == InstructionHead(x, m, affection, userName) + ("\n\n" + x.reactionProtocol)
    ensures EndsWith(InstructionHead(x, m, affection, userName), AffectionPrompt(TierOf(affection), userName))
  {
    Sandwich(InstructionHead(x, m, affection, userName), MemorySection(memories, userName),
      MemorySection([], userName), x.reactionProtocol);
    Suffixed(BaseInstruction(x.personality) + "\n\n" + MoodInstruction(x, m) + "\n\n", AffectionPrompt(TierOf(affection), userName));
  }
}
