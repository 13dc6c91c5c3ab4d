/** The message box under the conversation: the text being typed, sent by
    the send button, and the picture picker, which sends the text typed so
    far together with the chosen picture. */
module ChatInput {
  import opened Wrappers
  import opened Types
  import opened Text
  import opened Notifications

  /** The largest picture accepted, in bytes (5 MB). */
  const MaxAttachmentBytes: nat := 5 * 1024 * 1024

  predicate TooLarge(size: nat) {
    size > MaxAttachmentBytes
  }

  /** A file chosen in the picker. */
  datatype ChosenFile = ChosenFile(name: string, mimeType: string, size: nat)

  /** A picture being read: the text typed when it was chosen, and the
      file's name and type. */
  datatype Reading = Reading(text: string, name: string, mimeType: string)

  /** What the box hands to the conversation. */
  datatype Outgoing = Outgoing(text: string, attachment: Option<Attachment>)

  /** The send button is disabled while the conversation is busy or while
      the text is blank. */
  predicate SendDisabled(isLoading: bool, input: string) {
    isLoading || IsBlank(input)
  }

  class InputBox {
    var input: string

    constructor ()
      ensures input == []
    {
      input := [];
    }

    /** Typing, or a voice transcript arriving, replaces the text. */
    method Edit(text: string)
      modifies this
      ensures input == text
    {
      input := text;
    }

    /** The send button: a text that is not blank is sent as it was typed
        (untrimmed) when the conversation is not busy, and the box is
        cleared; otherwise nothing is sent and the text stays. */
    method Submit(isLoading: bool) returns (sent: Option<Outgoing>)
      modifies this
      ensures sent.Some? <==> !SendDisabled(isLoading, old(input))
      ensures sent.Some? ==> sent.value == Outgoing(old(input), None) && input == []
      ensures sent.None? ==> input == old(input)
    {
      if !IsBlank(input) && !isLoading {
        sent := Some(Outgoing(input, None));
        input := [];
      } else {
        sent := None;
      }
    }

    /** The picker. No file: nothing happens. A file larger than 5 MB is
        refused with an error notification (`now` is the clock reading that
        becomes its id) and the text stays. Any other file, 5 MB exactly
        included, starts being read, with the text typed so far. The busy
        flag is not consulted. */
    method ChooseFile(file: Option<ChosenFile>, center: NotificationCenter, now: int) returns (reading: Option<Reading>)
      modifies center
      ensures file.None? ==> reading.None? && center.notifications == old(center.notifications)
      ensures file.Some? && TooLarge(file.value.size) ==>
        reading.None? && center.notifications == old(center.notifications) + [Notification(now, "File is too large (max 5MB).", Error)]
      ensures file.Some? && !TooLarge(file.value.size) ==>
        reading == Some(Reading(input, file.value.name, file.value.mimeType)) && center.notifications == old(center.notifications)
    {
      reading := None;
      if file.Some? {
        if TooLarge(file.value.size) {
          center.Add("File is too large (max 5MB).", Error, now);
        } else {
          reading := Some(Reading(input, file.value.name, file.value.mimeType));
        }
      }
    }

    /** A picture read as the data URL `url`: the text typed when it was
        chosen is sent with the picture, and the box is cleared. */
    method FileRead(r: Reading, url: string) returns (sent: Outgoing)
      modifies this
      ensures sent == Outgoing(r.text, Some(Attachment(r.name, r.mimeType, url)))
      ensures input == []
    {
      sent := Outgoing(r.text, Some(Attachment(r.name, r.mimeType, url)));
      input := [];
    }
  }

  /** A file of exactly 5 MB is read; one byte more is refused. */
  lemma SizeLimit()
    ensures !TooLarge(5242880) && TooLarge(5242881)
  {
  }

  /** The box never sends a blank text on its own: a send from the button
      carries text that is not blank, so the conversation's guard accepts
      it whenever the conversation is idle. */
  lemma SubmittedNotBlank(isLoading: bool, input: string)
    requires !SendDisabled(isLoading, input)
    ensures !AllSpace(input) && input != []
  {
    BlankIffAllSpace(input);
  }
}
