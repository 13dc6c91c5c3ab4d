/** Conversion of a stored transcript into the turns a generative session is
    seeded with: one turn per message that has something to send, each with
    a role and a list of parts. */
module HistoryCodec {
  import opened Wrappers
  import opened Types
  import opened Text

  /** The role of a turn: the user's, or the model's. */
  datatype Role = AsUser | AsModel

  datatype Part = TextPart(text: string) | InlineData(mimeType: string, data: string)

  datatype Content = Content(role: Role, parts: seq<Part>)

  /** The end of the run of word characters in `s` starting at `i`. */
  function WordRunEnd(s: string, i: nat): (j: nat)
    requires i <= |s|
    ensures i <= j <= |s|
    ensures forall k :: i <= k < j ==> IsWordChar(s[k])
    ensures j == |s| || !IsWordChar(s[j])
    decreases |s| - i
  {
    if i < |s| && IsWordChar(s[i]) then WordRunEnd(s, i + 1) else i
  }

  /** The text after a leading reaction tag `[reaction:<word>]`, with the
      white space that follows the tag removed; any other text unchanged.
      (`\w+` cannot match `]`, so the word is the whole run of word
      characters after the colon.) */
  function StripReactionTag(s: string): string {
    match AfterPrefix(s, "[reaction:")
    case None => s
    case Some(t) => StripTagRest(s, t)
  }

  /** The rest of a tag after its opening `[reaction:` is `t`: when `t` is a
      word followed by `]`, what follows the bracket without its leading
      white space; otherwise the whole text `s` unchanged. */
  function StripTagRest(s: string, t: string): string {
    var j := WordRunEnd(t, 0);
    if 0 < j < |t| && t[j] == ']' then TrimStart(t[j + 1..]) else s
  }

  /** Stripping keeps a suffix of the text, and leaves a text that does not
      open with `[reaction:` as it is. */
  lemma StripKeepsSuffix(s: string)
    ensures var r := StripReactionTag(s); |r| <= |s| && r == s[|s| - |r|..]
    ensures !StartsWith(s, "[reaction:") ==> StripReactionTag(s) == s
  {
    AfterPrefixSpec(s, "[reaction:");
    match AfterPrefix(s, "[reaction:")
    case None =>
    case Some(t) =>
      var j := WordRunEnd(t, 0);
      if 0 < j < |t| && t[j] == ']' {
        assert s[10 + j + 1..] == t[j + 1..];
      }
      assert StripReactionTag(s) == StripTagRest(s, t);
  }

  lemma Regroup(a: string, b: string, c: string, d: string, e: string)
    ensures a + b + c + d + e == a + (b + (c + (d + e)))
  {
  }

  lemma {:induction false} WordRunOver(s: string, i: nat, n: nat)
    requires i + n < |s|
    requires forall k :: i <= k < i + n ==> IsWordChar(s[k])
    requires !IsWordChar(s[i + n])
    ensures WordRunEnd(s, i) == i + n
    decreases n
  {
    if n > 0 {
      WordRunOver(s, i + 1, n - 1);
    }
  }

  lemma {:induction false} TrimStartSkipsSpace(gap: string, body: string)
    requires AllSpace(gap)
    requires body == [] || !IsSpace(body[0])
    ensures TrimStart(gap + body) == body
    decreases |gap|
  {
    if gap == [] {
      assert gap + body == body;
    } else {
      var s := gap + body;
      assert s[0] == gap[0] && IsSpace(gap[0]);
      assert s[1..] == gap[1..] + body;
      assert AllSpace(gap[1..]);
      TrimStartSkipsSpace(gap[1..], body);
      assert TrimStart(s) == TrimStart(s[1..]);
    }
  }

  /** After the tag's opening: the word, the closing bracket, white space
      and a text that does not start with white space. */
  lemma {:induction false} TagBody(word: string, gap: string, body: string)
    requires word != [] && forall k :: 0 <= k < |word| ==> IsWordChar(word[k])
    requires AllSpace(gap)
    requires body == [] || !IsSpace(body[0])
    ensures var t := word + ("]" + (gap + body)); var j := WordRunEnd(t, 0);
      0 < j < |t| && t[j] == ']' && TrimStart(t[j + 1..]) == body
  {
    var rest := "]" + (gap + body);
    var t := word + rest;
    forall k | 0 <= k < |word| ensures IsWordChar(t[k]) {
      assert t[k] == word[k];
    }
    assert t[|word|] == rest[0] == ']';
    WordRunOver(t, 0, |word|);
    assert t[|word| + 1..] == rest[1..] == gap + body;
    TrimStartSkipsSpace(gap, body);
  }

  lemma StripTagged(t: string)
    ensures StripReactionTag("[reaction:" + t) == StripTagRest("[reaction:" + t, t)
  {
    AfterPrefixOf("[reaction:", t);
  }

  /** A tag with a word-character name, white space, then a text that does
      not start with white space: stripping gives back exactly that text. */
  lemma StripAfterTag(word: string, gap: string, body: string)
    requires word != [] && forall k :: 0 <= k < |word| ==> IsWordChar(word[k])
    requires AllSpace(gap)
    requires body == [] || !IsSpace(body[0])
    ensures StripReactionTag("[reaction:" + word + "]" + gap + body) == body
  {
    var t := word + ("]" + (gap + body));
    TagBody(word, gap, body);
    StripTagged(t);
    Regroup("[reaction:", word, "]", gap, body);
  }

  /** A text that opens with `[reaction:` but not with a whole tag (no
      word characters after the colon, or a word not followed by `]`) is
      left as it is. */
  lemma StripWithoutTag(word: string, rest: string)
    requires forall k :: 0 <= k < |word| ==> IsWordChar(word[k])
    requires rest == [] || !IsWordChar(rest[0])
    requires word == [] || rest == [] || rest[0] != ']'
    ensures StripReactionTag("[reaction:" + word + rest) == "[reaction:" + word + rest
  {
    var t := word + rest;
    var j := WordRunEnd(t, 0);
    forall k | 0 <= k < |word| ensures IsWordChar(t[k]) {
      assert t[k] == word[k];
    }
    assert |word| < |t| ==> t[|word|] == rest[0];
    assert j == |word|;
    StripTagged(t);
    assert "[reaction:" + word + rest == "[reaction:" + t;
  }

  /** The inline-data part of an attachment: present when the URL is not
      empty and its text between the first and the second comma (the
      base64 payload of a data URL) is not empty. The payload is not
      decoded. */
  function AttachmentPart(a: Option<Attachment>): Option<Part>
  {
    match a
    case None => None
    case Some(att) =>
      if att.url == [] then None
      else match SecondCommaField(att.url)
        case None => None
        case Some(data) => if data == [] then None else Some(InlineData(att.mimeType, data))
  }

  /** The text a message contributes: the model's replies lose a leading
      reaction tag, the user's text is sent as written. */
  function SentText(m: ChatMessage): string {
    if m.sender == FromAi then StripReactionTag(m.text) else m.text
  }

  /** The parts of one message: a text part when the stored text is not
      empty (checked before the tag is removed), then the attachment. */
  function MessageParts(m: ChatMessage): seq<Part>
  {
    (if m.text != [] then [TextPart(SentText(m))] else [])
    + (match AttachmentPart(m.attachment) case Some(p) => [p] case None => [])
  }

  /** One message as a turn: the user's messages have the user role, every
      other sender the model role. */
  function ToContent(m: ChatMessage): Content {
    Content(if m.sender == FromUser then AsUser else AsModel, MessageParts(m))
  }

  /** The attachment part is there exactly when the URL is not empty and
      has a non-empty text after its first comma (up to any second comma);
      it carries the attachment's type and that text, which holds no comma. */
  lemma AttachmentPartShape(a: Option<Attachment>)
    ensures AttachmentPart(a).Some? <==>
      a.Some? && a.value.url != [] && SecondCommaField(a.value.url).Some?
      && SecondCommaField(a.value.url).value != []
    ensures AttachmentPart(a).Some? ==>
      AttachmentPart(a).value == InlineData(a.value.mimeType, SecondCommaField(a.value.url).value)
      && forall k :: 0 <= k < |AttachmentPart(a).value.data| ==> AttachmentPart(a).value.data[k] != ','
  {
  }

  /** At most two parts: a text part first exactly when the stored text is
      not empty, an inline-data part last exactly when the attachment gives
      one; no parts at all only when there is neither. */
  lemma MessagePartsShape(m: ChatMessage)
    ensures var r := MessageParts(m);
      |r| <= 2
      && ((r != [] && r[0].TextPart?) <==> m.text != [])
      && (m.text != [] ==> r[0] == TextPart(SentText(m)))
      && ((r != [] && r[|r| - 1].InlineData?) <==> AttachmentPart(m.attachment).Some?)
      && (AttachmentPart(m.attachment).Some? ==> r[|r| - 1] == AttachmentPart(m.attachment).value)
      && (r == [] <==> m.text == [] && AttachmentPart(m.attachment).None?)
  {
  }

  /** The user's messages get the user role, every other sender the model
      role; the parts are the message's parts. */
  lemma ToContentRole(m: ChatMessage)
    ensures ToContent(m).role == AsUser <==> m.sender == FromUser
    ensures ToContent(m).role == AsModel <==> m.sender != FromUser
    ensures ToContent(m).parts == MessageParts(m)
  {
  }

  /** `f` applied to every element, in order. */
  function Map<A, B>(f: A -> B, xs: seq<A>): (r: seq<B>)
    ensures |r| == |xs| && forall i :: 0 <= i < |xs| ==> r[i] == f(xs[i])
  {
    seq(|xs|, i requires 0 <= i < |xs| => f(xs[i]))
  }

  lemma MapAppend<A, B>(f: A -> B, xs: seq<A>, ys: seq<A>)
    ensures Map(f, xs + ys) == Map(f, xs) + Map(f, ys)
  {
    forall i | 0 <= i < |xs + ys| ensures Map(f, xs + ys)[i] == (Map(f, xs) + Map(f, ys))[i] {
      if i < |xs| {
        assert (xs + ys)[i] == xs[i];
      } else {
        assert (xs + ys)[i] == ys[i - |xs|];
      }
    }
  }

  /** The turns that have at least one part, in order. */
  function WithParts(turns: seq<Content>): (r: seq<Content>)
    ensures |r| <= |turns|
    ensures forall i :: 0 <= i < |r| ==> r[i].parts != []
  {
    if turns == [] then []
    else (if turns[0].parts != [] then [turns[0]] else []) + WithParts(turns[1..])
  }

  /** The transcript as turns: every message in order, without the turns
      that have no parts. */
  function ConvertHistory(history: seq<ChatMessage>): (r: seq<Content>)
    ensures |r| <= |history|
    ensures forall i :: 0 <= i < |r| ==> r[i].parts != []
  {
    WithParts(Map(ToContent, history))
  }

  lemma {:induction false} WithPartsAppend(t1: seq<Content>, t2: seq<Content>)
    ensures WithParts(t1 + t2) == WithParts(t1) + WithParts(t2)
    decreases |t1|
  {
    if t1 == [] {
      assert t1 + t2 == t2;
    } else {
      assert (t1 + t2)[0] == t1[0];
      assert (t1 + t2)[1..] == t1[1..] + t2;
      WithPartsAppend(t1[1..], t2);
      var head := if t1[0].parts != [] then [t1[0]] else [];
      assert head + (WithParts(t1[1..]) + WithParts(t2)) == head + WithParts(t1[1..]) + WithParts(t2);
    }
  }

  lemma {:induction false} WithPartsMembers(turns: seq<Content>)
    ensures forall c :: c in WithParts(turns) <==> c in turns && c.parts != []
    decreases |turns|
  {
    if turns != [] {
      WithPartsMembers(turns[1..]);
      assert turns == [turns[0]] + turns[1..];
    }
  }

  /** Converting a transcript converts its two halves and concatenates
      the results: order is kept and each message is judged alone. */
  lemma ConvertAppend(h1: seq<ChatMessage>, h2: seq<ChatMessage>)
    ensures ConvertHistory(h1 + h2) == ConvertHistory(h1) + ConvertHistory(h2)
  {
    MapAppend(ToContent, h1, h2);
    WithPartsAppend(Map(ToContent, h1), Map(ToContent, h2));
  }

  /** A message alone becomes its own turn, or nothing when it has no parts. */
  lemma ConvertOne(m: ChatMessage)
    ensures ConvertHistory([m]) == if MessageParts(m) != [] then [ToContent(m)] else []
  {
  }

  /** Every turn comes from a message of the transcript, and every message
      with parts is there as a turn. */
  lemma ConvertMembers(history: seq<ChatMessage>)
    ensures forall c :: c in ConvertHistory(history) ==> exists i :: 0 <= i < |history| && c == ToContent(history[i])
    ensures forall i :: 0 <= i < |history| && MessageParts(history[i]) != [] ==> ToContent(history[i]) in ConvertHistory(history)
  {
    var turns := Map(ToContent, history);
    WithPartsMembers(turns);
    forall c | c in ConvertHistory(history)
      ensures exists i :: 0 <= i < |history| && c == ToContent(history[i])
    {
      var i :| 0 <= i < |turns| && turns[i] == c;
    }
    forall i | 0 <= i < |history| && MessageParts(history[i]) != []
      ensures ToContent(history[i]) in ConvertHistory(history)
    {
      assert turns[i] == ToContent(history[i]);
    }
  }
}
