/** Text that must fit a cap (src/error.rs, and the composed transport message of src/provider.rs). */
module BoundedText {
  import opened ProviderErrors
  import opened Utf8

  /** A space, an ellipsis, a space and `(truncated)`: 14 characters, 16 bytes. */
  const TRUNCATION_MARKER: string := " \U{2026} (truncated)"
  const MARKER_BYTES := 16
  const MAX_EXTERNAL_MESSAGE_BYTES := 400
  const MAX_TRANSPORT_MESSAGE_BYTES := 2000
  const MAX_CONTRACT_DETAIL_CHARS := 256

  lemma MarkerLength()
    ensures ByteLen(TRUNCATION_MARKER) == MARKER_BYTES
  {
    hide ByteLen;
    assert TRUNCATION_MARKER == " \U{2026}" + " (truncated)";
    ByteLenAppend(" \U{2026}", " (truncated)");
    assert ByteLen(" \U{2026}") == 4 by { EllipsisLength(); }
    AsciiLength(" (truncated)");
  }

  lemma EllipsisLength()
    ensures ByteLen(" \U{2026}") == 4
  {
    assert " \U{2026}"[1..] == "\U{2026}";
    assert "\U{2026}"[1..] == "";
  }

  /** Reserve the marker inside the cap; without room for it, a piece of the marker alone. */
  function Mark(text: string, marker: string, cap: nat): string {
    if cap < ByteLen(marker) then TakeBytes(marker, cap)
    else TakeBytes(text, cap - ByteLen(marker)) + marker
  }

  /** The same computation on bytes, as the source does it: search for the boundary, cut, append. */
  function MarkBytes(text: seq<Byte>, marker: seq<Byte>, cap: nat): seq<Byte> {
    if cap < |marker| then marker[..FloorCharBoundary(marker, cap)]
    else text[..FloorCharBoundary(text, cap - |marker|)] + marker
  }

  /** Unconditionally marked: whether anything was cut is the caller's question. */
  function MarkWithinCap(text: string, cap: nat): string { Mark(text, TRUNCATION_MARKER, cap) }

  function MarkWithinCapBytes(text: seq<Byte>, cap: nat): seq<Byte> {
    MarkBytes(text, Encode(TRUNCATION_MARKER), cap)
  }

  lemma BytesEncodeMark(text: string, marker: string, cap: nat)
    ensures MarkBytes(Encode(text), Encode(marker), cap) == Encode(Mark(text, marker, cap))
  {
    hide Encode, ByteLen, FloorCharBoundary, TakeBytes;
    EncodedLength(marker);
    if cap < ByteLen(marker) {
      FloorIsTakeBytes(marker, cap);
    } else {
      var budget := cap - ByteLen(marker);
      FloorIsTakeBytes(text, budget);
      EncodeAppend(TakeBytes(text, budget), marker);
    }
  }

  /** The byte computation never splits a character: its result encodes the marked text. */
  lemma BytesEncodeMarkedText(text: string, cap: nat)
    ensures MarkWithinCapBytes(Encode(text), cap) == Encode(MarkWithinCap(text, cap))
  {
    hide MarkBytes, Mark, Encode;
    BytesEncodeMark(text, TRUNCATION_MARKER, cap);
  }

  /**
   `r` fits the cap. With room for the marker it is a prefix of the text followed by the whole
   marker: all of the text if that fits, and otherwise the longest prefix that does, wasting at most
   three bytes. Without room it is the longest piece of the marker.
   */
  ghost predicate IsMarked(r: string, text: string, marker: string, cap: nat) {
    && ByteLen(r) <= cap
    && (cap < ByteLen(marker) ==> r <= marker && ByteLen(r) + 3 >= cap)
    && (cap >= ByteLen(marker) ==> exists k :: MarkedAt(r, text, marker, cap, k))
  }

  ghost predicate MarkedAt(r: string, text: string, marker: string, cap: nat, k: nat) {
    && k <= |text|
    && r == text[..k] + marker
    && (k < |text| ==> ByteLen(text[..k + 1]) + ByteLen(marker) > cap && ByteLen(r) + 3 >= cap)
    && (ByteLen(text) + ByteLen(marker) <= cap ==> k == |text|)
  }

  lemma MarkMeaning(text: string, marker: string, cap: nat)
    ensures IsMarked(Mark(text, marker, cap), text, marker, cap)
  {
    hide ByteLen;
    if cap < ByteLen(marker) {
      TakeBytesMaximal(marker, cap);
    } else {
      var budget := cap - ByteLen(marker);
      TakeBytesMaximal(text, budget);
      ByteLenAppend(TakeBytes(text, budget), marker);
      assert MarkedAt(Mark(text, marker, cap), text, marker, cap, CharsWithin(text, budget));
    }
  }

  /** For the real marker, on every text and cap. */
  lemma MarkWithinCapMeaning(text: string, cap: nat)
    ensures IsMarked(MarkWithinCap(text, cap), text, TRUNCATION_MARKER, cap)
    ensures ByteLen(TRUNCATION_MARKER) == MARKER_BYTES
  {
    hide IsMarked, Mark, ByteLen;
    MarkMeaning(text, TRUNCATION_MARKER, cap);
    MarkerLength();
  }

  lemma MarkerPieces()
    ensures TakeBytes(TRUNCATION_MARKER, 0) == ""
    ensures TakeBytes(TRUNCATION_MARKER, 1) == TakeBytes(TRUNCATION_MARKER, 2) == TakeBytes(TRUNCATION_MARKER, 3) == " "
    ensures TakeBytes(TRUNCATION_MARKER, 4) == " \U{2026}"
  {
    var m := TRUNCATION_MARKER;
    var rest, tail := m[1..], m[2..];
    assert m[0] == ' ' && rest[0] == '\U{2026}' && rest[1..] == tail && tail[0] == ' ';
    assert CharsWithin(tail, 0) == 0;
    assert CharsWithin(rest, 0) == 0 && CharsWithin(rest, 1) == 0 && CharsWithin(rest, 2) == 0;
    assert CharsWithin(rest, 3) == 1;
  }

  /** The documented edge values, for every text: the ellipsis is never cut in half. */
  lemma MarkedEdgeValues(text: string)
    ensures MarkWithinCap(text, 0) == ""
    ensures MarkWithinCap(text, 1) == MarkWithinCap(text, 2) == MarkWithinCap(text, 3) == " "
    ensures MarkWithinCap(text, 4) == " \U{2026}"
    ensures MarkWithinCap(text, 16) == " \U{2026} (truncated)"
  {
    hide ByteLen, TakeBytes;
    MarkerLength();
    MarkerPieces();
    NothingFits(text);
  }

  lemma NothingFits(text: string)
    ensures TakeBytes(text, 0) == ""
  {
  }

  /** Unchanged when it fits, marked within the cap when it does not. */
  function Capped(text: string, cap: nat): string {
    if ByteLen(text) <= cap then text else MarkWithinCap(text, cap)
  }

  /** `ProviderError::external`: the only constructor another crate can reach. */
  function ExternalError(message: string, kind: ExternalErrorKind): ProviderError {
    External(Capped(message, MAX_EXTERNAL_MESSAGE_BYTES), kind)
  }

  /** Operation and endpoint come first, so a cut eats the cause chain before it eats them. */
  function UncutTransportMessage(op: string, redactedUrl: string, causeChain: string): string {
    var head := op + " for " + redactedUrl;
    if causeChain == [] then head else head + ": " + causeChain
  }

  function ComposeTransportMessage(op: string, redactedUrl: string, causeChain: string): string {
    Capped(UncutTransportMessage(op, redactedUrl, causeChain), MAX_TRANSPORT_MESSAGE_BYTES)
  }

  lemma LongTextIsCut(r: string, text: string, marker: string, cap: nat)
    requires ByteLen(text) > cap >= ByteLen(marker) && IsMarked(r, text, marker, cap)
    ensures cap - 3 <= ByteLen(r) <= cap && r != text
    ensures |marker| <= |r| && r[|r| - |marker|..] == marker
  {
    hide ByteLen;
    var k :| MarkedAt(r, text, marker, cap, k);
    ByteLenAppend(text, marker);
    assert k == |text| ==> r == text + marker by {
      assert text[..|text|] == text;
    }
  }

  /** A capped text fits, is the text itself exactly when that fits, and ends in the marker otherwise. */
  lemma CappedMeaning(text: string, cap: nat)
    requires cap >= MARKER_BYTES
    ensures ByteLen(Capped(text, cap)) <= cap
    ensures Capped(text, cap) == text <==> ByteLen(text) <= cap
    ensures Capped(Capped(text, cap), cap) == Capped(text, cap)
    ensures ByteLen(text) > cap ==>
              var r := Capped(text, cap);
              var m := |TRUNCATION_MARKER|;
              ByteLen(r) >= cap - 3 && m <= |r| && r[|r| - m..] == TRUNCATION_MARKER
  {
    hide ByteLen, MarkWithinCap, IsMarked;
    MarkWithinCapMeaning(text, cap);
    if ByteLen(text) > cap {
      assert ByteLen(MarkWithinCap(text, cap)) <= cap by { MarkedFits(text, cap); }
      LongTextIsCut(MarkWithinCap(text, cap), text, TRUNCATION_MARKER, cap);
    }
  }

  lemma MarkedFits(text: string, cap: nat)
    ensures ByteLen(MarkWithinCap(text, cap)) <= cap
  {
    hide ByteLen, Mark;
    MarkMeaning(text, TRUNCATION_MARKER, cap);
  }

  /** Both bounded constructors, on every input. */
  lemma MessagesNeverExceedCaps(message: string, kind: ExternalErrorKind, op: string, url: string, causes: string)
    ensures ExternalError(message, kind).kind == kind
    ensures ByteLen(ExternalError(message, kind).message) <= 400
    ensures ExternalError(message, kind).message == message <==> ByteLen(message) <= 400
    ensures ByteLen(ComposeTransportMessage(op, url, causes)) <= 2000
    ensures ComposeTransportMessage(op, url, causes) == UncutTransportMessage(op, url, causes)
            <==> ByteLen(UncutTransportMessage(op, url, causes)) <= 2000
  {
    hide ByteLen, Capped;
    CappedMeaning(message, MAX_EXTERNAL_MESSAGE_BYTES);
    CappedMeaning(UncutTransportMessage(op, url, causes), MAX_TRANSPORT_MESSAGE_BYTES);
  }

  /** A message that fits says the operation, the endpoint and, after a colon, every cause; no cause, no colon. */
  lemma TransportMessageWhole(op: string, url: string, causes: string)
    requires ByteLen(op) + ByteLen(url) + ByteLen(causes) + 7 <= 2000
    ensures ComposeTransportMessage(op, url, "") == op + " for " + url
    ensures causes != "" ==> ComposeTransportMessage(op, url, causes) == op + " for " + url + ": " + causes
  {
    hide ByteLen, Mark;
    AsciiLength(" for ");
    AsciiLength(": ");
    ByteLenAppend(op, " for ");
    ByteLenAppend(op + " for ", url);
    ByteLenAppend(op + " for " + url, ": ");
    ByteLenAppend(op + " for " + url + ": ", causes);
  }

  /** A cut transport message still names its operation and endpoint whenever they leave room for the marker. */
  lemma EndpointSurvivesCut(op: string, url: string, causes: string)
    requires ByteLen(op + " for " + url) + MARKER_BYTES <= MAX_TRANSPORT_MESSAGE_BYTES
    ensures op + " for " + url <= ComposeTransportMessage(op, url, causes)
  {
    hide ByteLen, Mark;
    var head := op + " for " + url;
    if causes != [] {
      assert head + ": " + causes == head + (": " + causes);
      MarkerLength();
      MarkKeepsPrefix(head, ": " + causes, TRUNCATION_MARKER, MAX_TRANSPORT_MESSAGE_BYTES);
    }
  }

  lemma MarkKeepsPrefix(head: string, tail: string, marker: string, cap: nat)
    requires ByteLen(head) + ByteLen(marker) <= cap
    ensures head <= Mark(head + tail, marker, cap)
  {
    hide ByteLen, TakeBytes;
    TakeKeepsPrefix(head, tail, cap - ByteLen(marker));
  }

  lemma {:induction false} TakeKeepsPrefix(head: string, tail: string, budget: nat)
    requires ByteLen(head) <= budget
    ensures head <= TakeBytes(head + tail, budget)
  {
    if head != [] {
      assert (head + tail)[1..] == head[1..] + tail;
      TakeKeepsPrefix(head[1..], tail, budget - Width(head[0]));
    }
  }

  // ---- the contract detail, capped in characters ----

  /** `char_indices().nth(n)`: the byte offset of the n-th character, or the length. */
  function ByteOffset(s: string, n: nat): nat {
    if n == 0 || s == [] then 0 else Width(s[0]) + ByteOffset(s[1..], n - 1)
  }

  lemma {:induction false} OffsetCutsCharacters(s: string, n: nat)
    requires n <= |s|
    ensures ByteOffset(s, n) == ByteLen(s[..n])
    ensures TakeBytes(s, ByteOffset(s, n)) == s[..n]
  {
    if n > 0 {
      OffsetCutsCharacters(s[1..], n - 1);
      assert s[..n] == [s[0]] + s[1..][..n - 1];
      assert s[..n][1..] == s[1..][..n - 1];
    }
  }

  /** `ProviderError::response_contract`: truncates its own copy of the detail in place. */
  method NewResponseContract(cause: ResponseContractCause, text: string) returns (e: ProviderError)
    ensures e.ResponseContract? && e.cause == cause
    ensures e.detail == (if |text| <= 256 then text else text[..256])
    ensures ByteLen(e.detail) <= 1024
  {
    var detail := text;
    if |detail| > MAX_CONTRACT_DETAIL_CHARS {
      var cut := ByteOffset(detail, MAX_CONTRACT_DETAIL_CHARS);
      OffsetCutsCharacters(detail, MAX_CONTRACT_DETAIL_CHARS);
      detail := TakeBytes(detail, cut);
    }
    FourBytesEach(detail);
    e := ResponseContract(cause, detail);
  }

  lemma {:induction false} FourBytesEach(s: string)
    ensures |s| <= ByteLen(s) <= 4 * |s|
  {
    if s != [] {
      FourBytesEach(s[1..]);
    }
  }
}
