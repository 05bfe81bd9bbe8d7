/**
 * The state logic of the paginated chat screen (`PaginatedChatView`): the
 * tracker that decides when to scroll to the bottom (`lastMessageId`,
 * `initialScrollDone`), whether sending is enabled, what a tap on send does
 * with the draft, and which messages offer a delete action.
 */
module ChatViewState {
  import opened Wrappers
  import opened Uuids
  import opened Text
  import opened ChatMessages
  import Profiles

  /** A picked image; its pixels do not matter here. */
  datatype PickedImage = PickedImage(handle: nat)

  /** What a tap on send hands to the view model. */
  datatype SendAction = SendImage(image: PickedImage) | SendText(text: string)

  /** The id of the last message, when there is one. */
  function LastId(ids: seq<string>): Option<string> {
    if ids == [] then None else Some(ids[|ids| - 1])
  }

  /**
   * The tracked last id after the message count changed: the id of the new
   * last message when it differs, otherwise the tracked id as it was.
   */
  function NextLastMessageId(tracked: string, ids: seq<string>): (r: string)
    ensures ids == [] ==> r == tracked
    ensures ids != [] ==> r == ids[|ids| - 1]
  {
    if ids != [] && ids[|ids| - 1] != tracked then ids[|ids| - 1] else tracked
  }

  /**
   * The scroll that follows: `onChange(of: lastMessageId)` scrolls to the
   * last message exactly when the tracked id changed.
   */
  function ScrollAfterCountChange(tracked: string, ids: seq<string>): (r: Option<string>)
    ensures r.Some? <==> ids != [] && ids[|ids| - 1] != tracked
    ensures r.Some? ==> r == LastId(ids) && r.value == NextLastMessageId(tracked, ids)
  {
    var next := NextLastMessageId(tracked, ids);
    if next != tracked then LastId(ids) else None
  }

  /**
   * Once the tracker holds the id of the last message, prepending older
   * messages keeps that last message, so it neither moves the tracker nor
   * scrolls.
   */
  lemma PrependDoesNotScroll(tracked: string, older: seq<string>, ids: seq<string>)
    requires LastId(ids) == Some(tracked)
    ensures ScrollAfterCountChange(tracked, older + ids) == None
    ensures NextLastMessageId(tracked, older + ids) == tracked
  {
    assert (older + ids)[|older + ids| - 1] == ids[|ids| - 1];
  }

  /** A new message at the bottom with a fresh id scrolls to it. */
  lemma AppendScrolls(tracked: string, ids: seq<string>, id: string)
    requires id != tracked
    ensures ScrollAfterCountChange(tracked, ids + [id]) == Some(id)
    ensures NextLastMessageId(tracked, ids + [id]) == id
  {
  }

  /** An empty list neither moves the tracker nor scrolls. */
  lemma EmptyListKeepsTracker(tracked: string)
    ensures NextLastMessageId(tracked, []) == tracked
    ensures ScrollAfterCountChange(tracked, []) == None
  {
  }

  /** `canSend`: the trimmed draft is not empty, or an image is picked. */
  predicate CanSend(messageText: string, selectedImage: Option<PickedImage>) {
    Trim(messageText) != [] || selectedImage.Some?
  }

  /** Send is enabled unless the draft is only whitespace and no image is picked. */
  lemma CanSendIff(messageText: string, selectedImage: Option<PickedImage>)
    ensures CanSend(messageText, selectedImage) <==> !AllWhitespace(messageText) || selectedImage.Some?
  {
    TrimEmptyIffAllWhitespace(messageText);
  }

  /** The context menu offers delete only on the current user's own messages. */
  predicate DeleteOffered(m: ChatMessage, currentUserId: string) {
    m.sender_id == currentUserId
  }

  /**
   * For decoded messages and a decoded profile, comparing the id texts is
   * the same as comparing the UUIDs: delete is offered exactly on the
   * messages the current user sent.
   */
  lemma DeleteOfferedIffOwnMessage(m: ChatMessage, currentUser: Profiles.ProfileModel)
    requires WellFormed(m) && Profiles.WellFormed(currentUser)
    ensures DeleteOffered(m, currentUser.id) <==> ParseUuid(m.sender_id) == ParseUuid(currentUser.id)
  {
    if ParseUuid(m.sender_id) == ParseUuid(currentUser.id) {
      assert UuidString(ParseUuid(m.sender_id).value) == m.sender_id;
    }
  }

  class PaginatedChatState {
    var messageText: string
    var selectedImage: Option<PickedImage>
    var lastMessageId: string
    var initialScrollDone: bool
    /** The message count `onChange(of: viewModel.messages.count)` last saw. */
    var observedCount: nat

    constructor(initialCount: nat)
      ensures messageText == [] && selectedImage.None?
      ensures lastMessageId == [] && !initialScrollDone && observedCount == initialCount
    {
      messageText := [];
      selectedImage := None;
      lastMessageId := [];
      initialScrollDone := false;
      observedCount := initialCount;
    }

    /**
     * The view sees the message list `ids` (by id, in order). Only a change
     * of count moves the tracker; the scroll it triggers, if any, is returned.
     */
    method ObserveMessages(ids: seq<string>) returns (scrollTo: Option<string>)
      modifies this
      ensures observedCount == |ids|
      ensures messageText == old(messageText) && selectedImage == old(selectedImage)
      ensures initialScrollDone == old(initialScrollDone)
      ensures |ids| == old(observedCount) ==> lastMessageId == old(lastMessageId) && scrollTo.None?
      ensures |ids| != old(observedCount) ==>
        && lastMessageId == NextLastMessageId(old(lastMessageId), ids)
        && scrollTo == ScrollAfterCountChange(old(lastMessageId), ids)
    {
      scrollTo := None;
      if |ids| != observedCount {
        var previous := lastMessageId;
        if ids != [] && ids[|ids| - 1] != lastMessageId {
          lastMessageId := ids[|ids| - 1];
        }
        if lastMessageId != previous {
          scrollTo := LastId(ids);
        }
      }
      observedCount := |ids|;
    }

    /**
     * `onAppear` of the message list: scroll to the last message; the
     * initial scroll is then done. The list and its `onAppear` exist only
     * while there are messages, so the view calls this with `ids != []`;
     * the empty case stands for the source's unreachable `else` branch.
     * The tracked id is left as it was.
     *
     * The view does both inside a block it schedules 0.15 s later; this
     * method stands for the end of that block, and the delay is what keeps
     * the load-more trigger, which appears in the same pass, from loading.
     * On the first change from no messages to some, the list is created in
     * that update, so its scroll to the bottom is this one, to the same
     * target as `ObserveMessages` would give.
     */
    method OnAppear(ids: seq<string>) returns (scrollTo: Option<string>)
      modifies this
      ensures initialScrollDone
      ensures scrollTo == LastId(ids)
      ensures messageText == old(messageText) && selectedImage == old(selectedImage)
      ensures lastMessageId == old(lastMessageId) && observedCount == old(observedCount)
    {
      scrollTo := LastId(ids);
      initialScrollDone := true;
    }

    /**
     * `onAppear` of the list with the tracker synchronised to the last
     * message shown, so that a later prepend is recognised as one.
     */
    method OnAppearTrackingLast(ids: seq<string>) returns (scrollTo: Option<string>)
      modifies this
      ensures initialScrollDone
      ensures scrollTo == LastId(ids)
      ensures lastMessageId == NextLastMessageId(old(lastMessageId), ids)
      ensures messageText == old(messageText) && selectedImage == old(selectedImage)
      ensures observedCount == old(observedCount)
    {
      scrollTo := LastId(ids);
      lastMessageId := NextLastMessageId(lastMessageId, ids);
      initialScrollDone := true;
    }

    /** The load-more trigger appeared: older messages are requested only after the initial scroll. */
    method LoadMoreTriggerAppeared() returns (loadMore: bool)
      ensures loadMore <==> initialScrollDone
    {
      loadMore := initialScrollDone;
    }

    /**
     * `onSend`: with an image picked, the image is sent and the selection
     * cleared, the draft kept; otherwise the draft is sent and the field
     * cleared. The view clears the image only once the upload and insert
     * have finished, and the draft before sending; the method gives the
     * state after both.
     */
    method OnSend() returns (action: SendAction)
      modifies this
      ensures old(selectedImage).Some? ==>
        action == SendImage(old(selectedImage).value) && selectedImage.None? && messageText == old(messageText)
      ensures old(selectedImage).None? ==>
        action == SendText(old(messageText)) && messageText == [] && selectedImage.None?
      ensures lastMessageId == old(lastMessageId) && initialScrollDone == old(initialScrollDone)
      ensures observedCount == old(observedCount)
    {
      match selectedImage {
        case Some(image) =>
          action := SendImage(image);
          selectedImage := None;
        case None =>
          var text := messageText;
          messageText := [];
          action := SendText(text);
      }
    }
  }

  /** What the view sees before its message list appears. */
  datatype ViewEvent = MessagesChanged(ids: seq<string>) | SendTapped

  /**
   * No older page is requested before the message list has appeared: from a
   * fresh view, through any sequence of count changes and taps on send, the
   * load-more trigger requests nothing; once the list's `onAppear` has run,
   * it requests older messages.
   */
  method LoadMoreWaitsForAppear(initialCount: nat, events: seq<ViewEvent>, shown: seq<string>)
    returns (beforeAppear: bool, afterAppear: bool)
    ensures !beforeAppear && afterAppear
  {
    var view := new PaginatedChatState(initialCount);
    for i := 0 to |events|
      invariant !view.initialScrollDone
    {
      match events[i] {
        case MessagesChanged(ids) =>
          var _ := view.ObserveMessages(ids);
        case SendTapped =>
          var _ := view.OnSend();
      }
    }
    beforeAppear := view.LoadMoreTriggerAppeared();
    var _ := view.OnAppear(shown);
    afterAppear := view.LoadMoreTriggerAppeared();
  }

  /**
   * A view created over a list that already holds messages: its `onAppear`
   * leaves the tracker empty, so the first page of older messages prepended
   * afterwards scrolls to the bottom.
   */
  method FirstPrependAsWritten(older: seq<string>, ids: seq<string>) returns (scrollTo: Option<string>)
    requires older != [] && ids != [] && ids[|ids| - 1] != []
    ensures scrollTo == Some(ids[|ids| - 1])
  {
    var view := new PaginatedChatState(|ids|);
    var _ := view.OnAppear(ids);
    scrollTo := view.ObserveMessages(older + ids);
  }

  /**
   * With the tracker synchronised on appear, the first page of older
   * messages prepended afterwards does not scroll.
   */
  method FirstPrependTrackingLast(older: seq<string>, ids: seq<string>) returns (scrollTo: Option<string>)
    requires older != [] && ids != []
    ensures scrollTo.None?
  {
    var view := new PaginatedChatState(|ids|);
    var _ := view.OnAppearTrackingLast(ids);
    PrependDoesNotScroll(view.lastMessageId, older, ids);
    scrollTo := view.ObserveMessages(older + ids);
  }
}
