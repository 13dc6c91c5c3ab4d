/** The prompt an avatar picture is generated from, and the outcome of a
    generation request as the profile panel sees it. */
module AvatarPrompt {
  import opened Wrappers
  import opened Types
  import opened Text

  /** The optional appearance details; a field counts only when it is given
      and not empty. */
  datatype Customization = Customization(
    hairColor: Option<string>, eyeColor: Option<string>, hairstyle: Option<string>,
    clothing: Option<string>, accessory: Option<string>)

  predicate Given(field: Option<string>) {
    field.Some? && field.value != []
  }

  /** The five looks an avatar can be drawn in. */
  datatype Appearance = DefaultLook | Cyberpunk | Fantasy | Gothic | Anime

  function AppearanceName(a: Appearance): string {
    match a
    case DefaultLook => "Default"
    case Cyberpunk => "Cyberpunk"
    case Fantasy => "Fantasy"
    case Gothic => "Gothic"
    case Anime => "Anime"
  }

  /** The look a name selects; a name other than the four special ones
      selects the default look. */
  function AppearanceOf(name: string): Appearance {
    if name == "Cyberpunk" then Cyberpunk
    else if name == "Fantasy" then Fantasy
    else if name == "Gothic" then Gothic
    else if name == "Anime" then Anime
    else DefaultLook
  }

  /** The prompt's fixed texts: the subject line that opens every prompt,
      the quality line that closes it, the style instruction of each look
      and the expression of each mood. The application's values are
      `ShynPersona.Portrait`. */
  datatype PortraitTexts = PortraitTexts(
    subject: string, quality: string,
    defaultStyle: string, cyberpunk: string, fantasy: string, gothic: string, anime: string,
    cheerful: string, thoughtful: string, playful: string)

  function StyleInstruction(x: PortraitTexts, a: Appearance): string {
    match a
    case DefaultLook => x.defaultStyle
    case Cyberpunk => x.cyberpunk
    case Fantasy => x.fantasy
    case Gothic => x.gothic
    case Anime => x.anime
  }

  function MoodExpression(x: PortraitTexts, m: Mood): string {
    match m
    case Cheerful => x.cheerful
    case Thoughtful => x.thoughtful
    case Playful => x.playful
  }

  /** A clause for a given field: its lead-in followed by the value. */
  function Clause(field: Option<string>, lead: string): (r: seq<string>)
    ensures |r| <= 1
  {
    if Given(field) then [lead + field.value] else []
  }

  /** The five fields in the order their clauses are listed. */
  function Fields(c: Customization): (fs: seq<Option<string>>)
    ensures |fs| == 5
  {
    [c.hairstyle, c.hairColor, c.eyeColor, c.clothing, c.accessory]
  }

  /** The field at position `k`; none past the last one. */
  function Field(c: Customization, k: nat): Option<string> {
    if k < 5 then Fields(c)[k] else None
  }

  /** A field's text; empty when the field is absent. */
  function ValueOf(field: Option<string>): string {
    if field.Some? then field.value else []
  }

  /** The lead-in of each field's clause, in the same order. */
  function Leads(): (ls: seq<string>)
    ensures |ls| == 5
  {
    ["her hairstyle is ", "her hair color is ", "her eye color is ", "she is wearing ", "she has "]
  }

  function Lead(k: nat): string {
    if k < 5 then Leads()[k] else ""
  }

  /** The clauses of the fields from position `k` on. */
  function ClausesFrom(c: Customization, k: nat): seq<string>
    requires k <= 5
    decreases 5 - k
  {
    if k == 5 then [] else Clause(Field(c, k), Lead(k)) + ClausesFrom(c, k + 1)
  }

  /** The clauses of the given fields, in the order hairstyle, hair colour,
      eye colour, clothing, accessory. */
  function CustomClauses(c: Customization): seq<string> {
    ClausesFrom(c, 0)
  }

  /** The custom-details piece: none without clauses, else one sentence
      listing them separated by commas. */
  function DetailsPiece(clauses: seq<string>): (r: seq<string>)
    ensures |r| == if clauses == [] then 0 else 1
  {
    if |clauses| > 0 then ["Custom details: " + Join(clauses, ", ") + "."] else []
  }

  /** Pieces in their order: subject, style, the optional details, the
      expression and the quality line. */
  function Arrange(subject: string, style: string, details: seq<string>, expression: string, quality: string): (p: seq<string>)
    requires |details| <= 1
    ensures |p| == 4 + |details|
    ensures p[0] == subject && p[1] == style && p[|p| - 2] == expression && p[|p| - 1] == quality
    ensures |details| == 1 ==> p[2] == details[0]
  {
    [subject, style] + details + [expression, quality]
  }

  /** The pieces of the prompt for a mood, an appearance name and the
      customization. */
  function PromptPieces(x: PortraitTexts, m: Mood, appearance: string, c: Customization): seq<string> {
    Arrange(x.subject, StyleInstruction(x, AppearanceOf(appearance)), DetailsPiece(CustomClauses(c)), MoodExpression(x, m), x.quality)
  }

  /** The prompt: its pieces joined by single spaces. */
  function Prompt(x: PortraitTexts, m: Mood, appearance: string, c: Customization): string {
    Join(PromptPieces(x, m, appearance, c), " ")
  }

  function Count(b: bool): nat {
    if b then 1 else 0
  }

  /** One clause per given field, none for the others. */
  lemma CustomClausesCount(c: Customization)
    ensures |CustomClauses(c)| == Count(Given(c.hairstyle)) + Count(Given(c.hairColor))
      + Count(Given(c.eyeColor)) + Count(Given(c.clothing)) + Count(Given(c.accessory))
    ensures CustomClauses(c) == [] <==>
      !Given(c.hairstyle) && !Given(c.hairColor) && !Given(c.eyeColor) && !Given(c.clothing) && !Given(c.accessory)
  {
  }

  /** The positions from `k` on whose fields are given, in increasing order. */
  function GivenFrom(c: Customization, k: nat): seq<nat>
    requires k <= 5
    decreases 5 - k
  {
    if k == 5 then [] else (if Given(Field(c, k)) then [k] else []) + GivenFrom(c, k + 1)
  }

  /** Each position found is that of a given field, from `k` on. */
  lemma {:induction false} GivenFromGiven(c: Customization, k: nat)
    requires k <= 5
    ensures forall n :: n in GivenFrom(c, k) ==> k <= n < 5 && Given(Field(c, n))
    decreases 5 - k
  {
    if k < 5 {
      GivenFromGiven(c, k + 1);
      var ks := GivenFrom(c, k + 1);
      if Given(Field(c, k)) {
        assert GivenFrom(c, k) == [k] + ks;
      } else {
        assert GivenFrom(c, k) == ks;
      }
    }
  }

  /** The positions found from `k` on are at least `k`. */
  lemma {:induction false} GivenFromAbove(c: Customization, k: nat)
    requires k <= 5
    ensures forall n :: n in GivenFrom(c, k) ==> k <= n
    decreases 5 - k
  {
    if k < 5 {
      GivenFromAbove(c, k + 1);
      assert GivenFrom(c, k) == (if Given(Field(c, k)) then [k] else []) + GivenFrom(c, k + 1);
    }
  }

  /** The positions are found in increasing order: each is smaller than
      the next. */
  lemma {:induction false} GivenFromIncreasing(c: Customization, k: nat)
    requires k <= 5
    ensures forall i :: 0 < i < |GivenFrom(c, k)| ==> GivenFrom(c, k)[i - 1] < GivenFrom(c, k)[i]
    decreases 5 - k
  {
    if k < 5 {
      GivenFromIncreasing(c, k + 1);
      GivenFromAbove(c, k + 1);
      var ks := GivenFrom(c, k + 1);
      if Given(Field(c, k)) {
        var r := [k] + ks;
        assert GivenFrom(c, k) == r;
        forall i | 0 < i < |r| ensures r[i - 1] < r[i] {
          assert r[i] == ks[i - 1] && ks[i - 1] in ks;
          if i > 1 {
            assert r[i - 1] == ks[i - 2];
          }
        }
      } else {
        assert GivenFrom(c, k) == ks;
      }
    }
  }

  /** Every given field from position `k` on is found. */
  lemma {:induction false} GivenFromComplete(c: Customization, k: nat)
    requires k <= 5
    ensures forall n :: k <= n < 5 && Given(Field(c, n)) ==> n in GivenFrom(c, k)
    decreases 5 - k
  {
    if k < 5 {
      GivenFromComplete(c, k + 1);
      var ks := GivenFrom(c, k + 1);
      if Given(Field(c, k)) {
        assert GivenFrom(c, k) == [k] + ks;
      } else {
        assert GivenFrom(c, k) == ks;
        forall n | k <= n < 5 && Given(Field(c, n)) ensures n in ks {
          assert n != k;
        }
      }
    }
  }

  lemma {:induction false} ClausesFromGiven(c: Customization, k: nat)
    requires k <= 5
    ensures var ks := GivenFrom(c, k);
      |ClausesFrom(c, k)| == |ks|
      && forall i :: 0 <= i < |ks| ==> ClausesFrom(c, k)[i] == Lead(ks[i]) + ValueOf(Field(c, ks[i]))
    decreases 5 - k
  {
    if k < 5 {
      ClausesFromGiven(c, k + 1);
      var ks, cs := GivenFrom(c, k + 1), ClausesFrom(c, k + 1);
      if Given(Field(c, k)) {
        assert GivenFrom(c, k) == [k] + ks;
        assert ClausesFrom(c, k) == [Lead(k) + ValueOf(Field(c, k))] + cs;
      } else {
        assert GivenFrom(c, k) == ks;
        assert ClausesFrom(c, k) == cs;
      }
    }
  }

  /** The clauses are exactly those of the given fields, whichever they
      are, each made of its lead-in and value, listed in the fixed order
      hairstyle, hair colour, eye colour, clothing, accessory (the
      positions `GivenFrom(c, 0)`, described by `GivenFromGiven`,
      `GivenFromIncreasing` and `GivenFromComplete`). */
  lemma CustomClausesOrder(c: Customization)
    ensures var ks := GivenFrom(c, 0);
      |CustomClauses(c)| == |ks|
      && forall i :: 0 <= i < |ks| ==> CustomClauses(c)[i] == Lead(ks[i]) + ValueOf(Field(c, ks[i]))
  {
    ClausesFromGiven(c, 0);
  }

  /** The subject first and the quality line last, the style of the
      selected look second and the expression next to last; four pieces
      without custom details, and with them five, the third listing the
      clauses separated by commas. */
  lemma PromptPiecesShape(x: PortraitTexts, m: Mood, appearance: string, c: Customization)
    ensures var p := PromptPieces(x, m, appearance, c);
      |p| == (if CustomClauses(c) == [] then 4 else 5)
      && p[0] == x.subject && p[|p| - 1] == x.quality
      && p[1] == StyleInstruction(x, AppearanceOf(appearance))
      && p[|p| - 2] == MoodExpression(x, m)
      && (CustomClauses(c) != [] ==> p[2] == "Custom details: " + Join(CustomClauses(c), ", ") + ".")
  {
  }

  /** Every look is selected by its own name; a name other than the four
      special ones selects the default look. */
  lemma AppearanceNames(a: Appearance, name: string)
    ensures AppearanceOf(AppearanceName(a)) == a
    ensures name != "Cyberpunk" && name != "Fantasy" && name != "Gothic" && name != "Anime" ==> AppearanceOf(name) == DefaultLook
  {
  }

  /** Why a picture could not be had, as the text shown for it. */
  datatype AvatarFailure = ImageConfiguration | NewLookTrouble

  function AvatarFailureText(f: AvatarFailure): string {
    match f
    case ImageConfiguration =>
      "I'm having trouble with my image generation service due to a configuration issue."
    case NewLookTrouble =>
      "I'm having trouble creating a new look. Please try again in a moment."
  }

  /** A generation request. `images` is what the service returned: the
      image bytes of each generated image (None for an image without
      bytes), or what it threw. The first image's bytes are the result when
      they are there and not empty; otherwise the request fails with an
      error whose message does not mention `API_KEY`, which, like any
      failure other than an API-key error, is shown as the new-look text. */
  function GenerateAvatar(images: Result<seq<Option<string>>, Thrown>): (r: Result<string, AvatarFailure>)
    ensures r.Ok? <==> images.Ok? && |images.value| > 0 && Given(images.value[0])
    ensures r.Ok? ==> r.value == images.value[0].value && r.value != []
    ensures r == Err(ImageConfiguration) <==> images.Err? && images.error.ErrorValue? && Contains(images.error.message, "API_KEY")
  {
    match images
    case Ok(list) =>
      if |list| > 0 && Given(list[0]) then Ok(list[0].value) else Err(NewLookTrouble)
    case Err(e) =>
      if e.ErrorValue? && Contains(e.message, "API_KEY") then Err(ImageConfiguration) else Err(NewLookTrouble)
  }
}
