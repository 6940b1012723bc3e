/**
 * One open team chat thread on one screen (apps/web/lib/use-team-thread.ts): its handlers, and
 * every interleaving of them with a server that keeps one message per client id
 * (packages/db/src/team-chat.ts, postTeamMessage).
 */
module TeamThread {
  import opened Prelude

  type Id = int

  const TEAM_PAGE_SIZE: nat := 50

  datatype Message = Message(
    id: Id,
    threadId: Id,
    clientId: Id,
    author: Option<Id>,
    body: string,
    createdAt: int,
    removed: bool,
    reactions: seq<string>)

  datatype SendStatus = Sending | Failed

  /** `progress` is present when the message carries a file. */
  datatype Pending = Pending(clientId: Id, threadId: Id, body: string, status: SendStatus, progress: Option<real>)

  /** What the hook keeps: state set by setters, and the two refs. */
  datatype Screen = Screen(
    active: Option<Id>,
    messages: seq<Message>,
    pending: seq<Pending>,
    uploads: map<Id, Id>,
    canPost: bool,
    hasEarlier: bool)

  datatype Page = Page(messages: seq<Message>, canPost: bool)

  // ---- the list operations the setters use ----

  predicate HasMessage(list: seq<Message>, id: Id) {
    exists i :: 0 <= i < |list| && list[i].id == id
  }

  function Shown(list: seq<Message>, m: Message): seq<Message> {
    if HasMessage(list, m.id) then list else list + [m]
  }

  function MapMessages(list: seq<Message>, f: Message -> Message): (r: seq<Message>)
    ensures |r| == |list| && forall i :: 0 <= i < |list| ==> r[i] == f(list[i])
  {
    seq(|list|, i requires 0 <= i < |list| => f(list[i]))
  }

  function MapPending(list: seq<Pending>, f: Pending -> Pending): (r: seq<Pending>)
    ensures |r| == |list| && forall i :: 0 <= i < |list| ==> r[i] == f(list[i])
  {
    seq(|list|, i requires 0 <= i < |list| => f(list[i]))
  }

  function Without(list: seq<Pending>, clientId: Id): seq<Pending> {
    Filter(list, (p: Pending) => p.clientId != clientId)
  }

  function NotYetShown(page: seq<Message>, list: seq<Message>): seq<Message> {
    Filter(page, (m: Message) => !HasMessage(list, m.id))
  }

  // ---- the handlers ----

  function OnLoaded(s: Screen, thread: Id, page: Page): Screen {
    if s.active != Some(thread) then s
    else s.(messages := page.messages, canPost := page.canPost, hasEarlier := |page.messages| >= TEAM_PAGE_SIZE)
  }

  /** The effect that runs once a newly opened thread has been drawn. */
  function OnOpened(s: Screen): Screen {
    s.(messages := [])
  }

  function OnProgress(s: Screen, clientId: Id, fraction: real): Screen {
    s.(pending := MapPending(s.pending, (p: Pending) =>
      if p.clientId == clientId && p.progress.Some? then p.(progress := Some(fraction)) else p))
  }

  /** The start of deliver: an upload registers its controller. */
  function OnDeliver(s: Screen, item: Pending, attempt: Id): Screen {
    if item.progress.Some? then s.(uploads := s.uploads[item.clientId := attempt]) else s
  }

  function OnDelivered(s: Screen, item: Pending, message: Message): Screen {
    s.(uploads := s.uploads - {item.clientId},
       pending := Without(s.pending, item.clientId),
       messages := if s.active == Some(item.threadId) then Shown(s.messages, message) else s.messages)
  }

  function OnDeliverFailed(s: Screen, item: Pending, aborted: bool): Screen {
    var s' := s.(uploads := s.uploads - {item.clientId});
    if aborted then s'
    else s'.(pending := MapPending(s.pending, (p: Pending) => if p.clientId == item.clientId then p.(status := Failed) else p))
  }

  function Again(item: Pending): Pending {
    item.(status := Sending, progress := if item.progress.Some? then Some(0.0) else None)
  }

  function OnRetry(s: Screen, item: Pending, attempt: Id): Screen {
    OnDeliver(s.(pending := MapPending(s.pending, (p: Pending) => if p.clientId == item.clientId then Again(item) else p)),
              Again(item), attempt)
  }

  /** send and sendFile once their guards have passed. */
  function OnSend(s: Screen, item: Pending, attempt: Id): Screen {
    OnDeliver(s.(pending := s.pending + [item]), item, attempt)
  }

  function OnCancel(s: Screen, clientId: Id): Screen {
    s.(uploads := s.uploads - {clientId}, pending := Without(s.pending, clientId))
  }

  /** loadEarlier's reply: there is no check that its thread is still the open one. */
  function OnEarlier(s: Screen, page: Page): Screen {
    s.(messages := NotYetShown(page.messages, s.messages) + s.messages, hasEarlier := |page.messages| >= TEAM_PAGE_SIZE)
  }

  datatype LiveEvent =
    | Posted(threadId: Id, message: Message)
    | Removed(threadId: Id, message: Message)
    | Reacted(threadId: Id, messageId: Id, reactions: seq<string>)

  function OnEvent(s: Screen, event: LiveEvent): Screen {
    if s.active != Some(event.threadId) then s
    else
      match event
      case Posted(_, m) => s.(messages := Shown(s.messages, m), pending := Without(s.pending, m.clientId))
      case Removed(_, gone) =>
        s.(messages := MapMessages(s.messages, (m: Message) => if m.id == gone.id then gone.(reactions := m.reactions) else m))
      case Reacted(_, id, reactions) =>
        s.(messages := MapMessages(s.messages, (m: Message) => if m.id == id then m.(reactions := reactions) else m))
  }

  // ---- the hook, with its state in place ----

  class ThreadHook {
    var active: Option<Id>
    var messages: seq<Message>
    var pending: seq<Pending>
    var uploads: map<Id, Id>
    var canPost: bool
    var hasEarlier: bool

    ghost function View(): Screen
      reads this
    {
      Screen(active, messages, pending, uploads, canPost, hasEarlier)
    }

    constructor (thread: Option<Id>)
      ensures View() == Screen(thread, [], [], map[], false, false)
    {
      active, messages, pending, uploads, canPost, hasEarlier := thread, [], [], map[], false, false;
    }

    method Loaded(thread: Id, page: Page)
      modifies this
      ensures View() == OnLoaded(old(View()), thread, page)
    {
      if active != Some(thread) {
        return;
      }
      messages := page.messages;
      canPost := page.canPost;
      hasEarlier := |page.messages| >= TEAM_PAGE_SIZE;
    }

    method StartDelivery(item: Pending, attempt: Id)
      modifies this`uploads
      ensures View() == OnDeliver(old(View()), item, attempt)
    {
      if item.progress.Some? {
        uploads := uploads[item.clientId := attempt];
      }
    }

    method Delivered(item: Pending, message: Message)
      modifies this
      ensures View() == OnDelivered(old(View()), item, message)
    {
      uploads := uploads - {item.clientId};
      pending := Without(pending, item.clientId);
      if active == Some(item.threadId) {
        if !HasMessage(messages, message.id) {
          messages := messages + [message];
        }
      }
    }

    method DeliveryFailed(item: Pending, aborted: bool)
      modifies this
      ensures View() == OnDeliverFailed(old(View()), item, aborted)
    {
      uploads := uploads - {item.clientId};
      if aborted {
        return;
      }
      pending := MapPending(pending, (p: Pending) => if p.clientId == item.clientId then p.(status := Failed) else p);
    }

    /** send: refused, changing nothing, when there is nothing to send or nowhere to send it. */
    method Send(text: string, clientId: Id, attempt: Id) returns (queued: bool)
      modifies this
      ensures queued == (text != "" && old(active).Some? && old(canPost))
      ensures View() == if queued then OnSend(old(View()), Pending(clientId, old(active).value, text, Sending, None), attempt)
                        else old(View())
    {
      if text == "" || active.None? || !canPost {
        return false;
      }
      var item := Pending(clientId, active.value, text, Sending, None);
      pending := pending + [item];
      StartDelivery(item, attempt);
      return true;
    }

    method SendFile(caption: string, clientId: Id, attempt: Id) returns (queued: bool)
      modifies this
      ensures queued == (old(active).Some? && old(canPost))
      ensures View() == if queued then OnSend(old(View()), Pending(clientId, old(active).value, caption, Sending, Some(0.0)), attempt)
                        else old(View())
    {
      if active.None? || !canPost {
        return false;
      }
      var item := Pending(clientId, active.value, caption, Sending, Some(0.0));
      pending := pending + [item];
      StartDelivery(item, attempt);
      return true;
    }

    method Retry(item: Pending, attempt: Id)
      modifies this
      ensures View() == OnRetry(old(View()), item, attempt)
    {
      var again := item.(status := Sending, progress := if item.progress.Some? then Some(0.0) else None);
      pending := MapPending(pending, (p: Pending) => if p.clientId == item.clientId then Again(item) else p);
      StartDelivery(again, attempt);
    }

    /** cancel: the upload to abort, if one is registered. */
    method Cancel(clientId: Id) returns (abort: Option<Id>)
      modifies this
      ensures View() == OnCancel(old(View()), clientId)
      ensures abort == if clientId in old(uploads) then Some(old(uploads)[clientId]) else None
    {
      abort := if clientId in uploads then Some(uploads[clientId]) else None;
      uploads := uploads - {clientId};
      pending := Without(pending, clientId);
    }

    method EarlierLoaded(page: Page)
      modifies this
      ensures View() == OnEarlier(old(View()), page)
    {
      messages := NotYetShown(page.messages, messages) + messages;
      hasEarlier := |page.messages| >= TEAM_PAGE_SIZE;
    }

    method Heard(event: LiveEvent)
      modifies this
      ensures View() == OnEvent(old(View()), event)
    {
      if active != Some(event.threadId) {
        return;
      }
      match event
      case Posted(_, m) =>
        if !HasMessage(messages, m.id) {
          messages := messages + [m];
        }
        pending := Without(pending, m.clientId);
      case Removed(_, gone) =>
        messages := MapMessages(messages, (m: Message) => if m.id == gone.id then gone.(reactions := m.reactions) else m);
      case Reacted(_, id, reactions) =>
        messages := MapMessages(messages, (m: Message) => if m.id == id then m.(reactions := reactions) else m);
    }
  }

  // ---- the screen, the server and what is on its way between them ----

  /** A load has its page once the server has read it; the page is then on its way back. */
  datatype Request =
    | Load(threadId: Id, read: Option<Page>)
    | LoadEarlier(threadId: Id, before: int, read: Option<Page>)
    | Deliver(item: Pending)

  /**
   * `server` is the table of messages; `requests` are the calls in flight, and `aborted` those
   * an upload's cancel has stopped. `sent` is every item this screen ever queued. A client id
   * is `confirmed` once the screen has handled the reply to it or a live event carrying it, and
   * `cancelled` once cancel was pressed. `drawn` is false between the render of a newly opened
   * thread and its effect. `strayed` says that an earlier page of another thread has been put
   * into the present list.
   */
  datatype World = World(
    screen: Screen,
    server: map<Id, Message>,
    requests: map<Id, Request>,
    aborted: set<Id>,
    sent: map<Id, Pending>,
    confirmed: set<Id>,
    cancelled: set<Id>,
    drawn: bool,
    strayed: bool)

  datatype Event =
    | Open(thread: Option<Id>)
    | Drawn(request: Id)
    | Reload(request: Id)
    | Read(request: Id, page: Page)
    | LoadReply(request: Id)
    | Send(item: Pending, request: Id)
    | Retry(item: Pending, request: Id)
    | Cancel(clientId: Id)
    | Store(clientId: Id, messageId: Id, author: Option<Id>, createdAt: int)
    | SendReply(request: Id)
    | SendFails(request: Id)
    | Progress(request: Id, fraction: real)
    | EarlierStart(request: Id, threadId: Id, before: int)
    | EarlierReply(request: Id)
    | OtherPost(message: Message)
    | OtherRemove(id: Id)
    | Hear(live: LiveEvent)

  function Fresh(): World {
    World(Screen(None, [], [], map[], false, false), map[], map[], {}, map[], {}, {}, true, false)
  }

  /** postTeamMessage: the row for a client id in a thread, if it has one. */
  predicate Stored(server: map<Id, Message>, threadId: Id, clientId: Id) {
    exists id :: id in server && IsFor(server[id], threadId, clientId)
  }

  predicate IsFor(m: Message, threadId: Id, clientId: Id) {
    m.threadId == threadId && m.clientId == clientId
  }

  function StoredId(server: map<Id, Message>, threadId: Id, clientId: Id): (id: Id)
    requires OnePerClientId(server) && Stored(server, threadId, clientId)
    ensures id in server && IsFor(server[id], threadId, clientId)
  {
    assert forall i, j :: i in server && j in server && IsFor(server[i], threadId, clientId) && IsFor(server[j], threadId, clientId)
                          ==> i == j;
    var id :| id in server && IsFor(server[id], threadId, clientId);
    id
  }

  predicate OnePerClientId(server: map<Id, Message>) {
    forall i, j :: i in server && j in server && IsFor(server[i], server[j].threadId, server[j].clientId) ==> i == j
  }

  /** A message as some reply or event carries it: of this row, however long ago it was read. */
  predicate CopyOf(server: map<Id, Message>, m: Message) {
    m.id in server && IsFor(m, server[m.id].threadId, server[m.id].clientId) && server[m.id].id == m.id
  }

  predicate DistinctIds(list: seq<Message>) {
    forall i, j :: 0 <= i < j < |list| ==> list[i].id != list[j].id
  }

  predicate AllOf(list: seq<Message>, threadId: Id) {
    forall i :: 0 <= i < |list| ==> list[i].threadId == threadId
  }

  /** A page on its way, however old: distinct rows of its thread. */
  predicate PageOf(server: map<Id, Message>, threadId: Id, list: seq<Message>) {
    && DistinctIds(list) && AllOf(list, threadId)
    && forall i :: 0 <= i < |list| ==> CopyOf(server, list[i])
  }

  /** A row of the thread, made before the given time if there is one. */
  predicate InRange(server: map<Id, Message>, threadId: Id, before: Option<int>, id: Id) {
    id in server && server[id].threadId == threadId && (before.None? || server[id].createdAt < before.value)
  }

  /** A row as it stands, with what people have reacted to it. */
  predicate AsItStands(server: map<Id, Message>, m: Message) {
    m.id in server && m == server[m.id].(reactions := m.reactions)
  }

  predicate OldestFirst(list: seq<Message>) {
    forall i, j :: 0 <= i < j < |list| ==> list[i].createdAt <= list[j].createdAt
  }

  predicate NoneOlderThan(list: seq<Message>, time: int) {
    forall i :: 0 <= i < |list| ==> time <= list[i].createdAt
  }

  /** listTeamMessages: the latest rows in range, a page of them at most, oldest first. */
  ghost predicate LatestOf(server: map<Id, Message>, threadId: Id, before: Option<int>, list: seq<Message>) {
    && DistinctIds(list) && OldestFirst(list) && |list| <= TEAM_PAGE_SIZE
    && (forall i :: 0 <= i < |list| ==> AsItStands(server, list[i]) && InRange(server, threadId, before, list[i].id))
    && (forall id :: InRange(server, threadId, before, id) && !HasMessage(list, id) ==>
          |list| == TEAM_PAGE_SIZE && NoneOlderThan(list, server[id].createdAt))
  }

  function LiveMessage(live: LiveEvent): Option<Message> {
    match live
    case Posted(_, m) => Some(m)
    case Removed(_, m) => Some(m)
    case Reacted(_, _, _) => None
  }

  predicate IsDelivery(w: World, request: Id) {
    request in w.requests && w.requests[request].Deliver?
  }

  predicate HasReply(w: World, request: Id) {
    IsDelivery(w, request) && Stored(w.server, w.requests[request].item.threadId, w.requests[request].item.clientId)
  }

  /** A load of either kind that the server has not read for yet. */
  predicate Unread(w: World, request: Id) {
    request in w.requests && !w.requests[request].Deliver? && w.requests[request].read.None?
  }

  predicate HasPage(w: World, request: Id) {
    request in w.requests && !w.requests[request].Deliver? && w.requests[request].read.Some?
  }

  function Before(request: Request): Option<int> {
    if request.LoadEarlier? then Some(request.before) else None
  }

  ghost predicate Enabled(w: World, event: Event) {
    match event
    case Open(thread) => thread != w.screen.active
    case Drawn(request) => !w.drawn && request !in w.requests && request !in w.aborted
    case Reload(request) => request !in w.requests && request !in w.aborted
    case Read(request, page) =>
      Unread(w, request) && LatestOf(w.server, w.requests[request].threadId, Before(w.requests[request]), page.messages)
    case LoadReply(request) => HasPage(w, request) && w.requests[request].Load?
    case Send(item, request) =>
      // From any render, whatever thread it was for; crypto.randomUUID: a client id nobody has used.
      && item.status == Sending
      && item.clientId !in w.sent && (forall id :: id in w.server ==> w.server[id].clientId != item.clientId)
      && request !in w.requests && request !in w.aborted
    case Retry(item, request) =>
      // Any item this screen has ever shown as pending, however stale.
      && item.clientId in w.sent && item.threadId == w.sent[item.clientId].threadId && item.body == w.sent[item.clientId].body
      && request !in w.requests && request !in w.aborted
    case Cancel(clientId) => clientId in w.sent
    // Whenever it arrives, also after the screen has given it up.
    case Store(clientId, messageId, _, _) => clientId in w.sent && messageId !in w.server
    case SendReply(request) => HasReply(w, request) && OnePerClientId(w.server)
    case SendFails(request) => IsDelivery(w, request)
    case Progress(request, _) => IsDelivery(w, request)
    // From any render, for its thread and the oldest message it showed.
    case EarlierStart(request, _, _) => request !in w.requests && request !in w.aborted
    case EarlierReply(request) => HasPage(w, request) && w.requests[request].LoadEarlier?
    case OtherPost(m) =>
      m.id !in w.server && m.clientId !in w.sent && !Stored(w.server, m.threadId, m.clientId)
    case OtherRemove(id) => id in w.server
    case Hear(live) => live.Reacted? || (var m := LiveMessage(live).value; CopyOf(w.server, m) && live.threadId == m.threadId)
  }

  function FireStore(w: World, clientId: Id, messageId: Id, author: Option<Id>, createdAt: int): World
    requires clientId in w.sent
  {
    var item := w.sent[clientId];
    if Stored(w.server, item.threadId, clientId) then w
    else w.(server := w.server[messageId := Message(messageId, item.threadId, clientId, author, item.body, createdAt, false, [])])
  }

  function FireRead(w: World, request: Id, page: Page): World
    requires Unread(w, request)
  {
    w.(requests := w.requests[request := w.requests[request].(read := Some(page))])
  }

  function FireHear(w: World, live: LiveEvent): World {
    w.(screen := OnEvent(w.screen, live),
       confirmed := if live.Posted? && w.screen.active == Some(live.threadId) then w.confirmed + {live.message.clientId} else w.confirmed)
  }

  function FireReply(w: World, request: Id): World
    requires Enabled(w, SendReply(request))
  {
    var item := w.requests[request].item;
    var message := w.server[StoredId(w.server, item.threadId, item.clientId)];
    w.(screen := OnDelivered(w.screen, item, message),
       requests := w.requests - {request},
       confirmed := w.confirmed + {item.clientId})
  }

  function FireEarlier(w: World, request: Id): World
    requires Enabled(w, EarlierReply(request))
  {
    var page := w.requests[request].read.value;
    w.(screen := OnEarlier(w.screen, page),
       requests := w.requests - {request},
       strayed := w.strayed || (w.screen.active != Some(w.requests[request].threadId) && page.messages != []))
  }

  function FireLoaded(w: World, request: Id): World
    requires Enabled(w, LoadReply(request))
  {
    var thread := w.requests[request].threadId;
    w.(screen := OnLoaded(w.screen, thread, w.requests[request].read.value),
       requests := w.requests - {request},
       strayed := w.strayed && w.screen.active != Some(thread))
  }

  function Fire(w: World, event: Event): World
    requires Enabled(w, event)
  {
    match event
    case Open(thread) => w.(screen := w.screen.(active := thread), drawn := false)
    case Drawn(request) =>
      w.(screen := OnOpened(w.screen), drawn := true, strayed := false,
         requests := if w.screen.active.Some? then w.requests[request := Load(w.screen.active.value, None)] else w.requests)
    case Reload(request) =>
      if w.screen.active.Some? then w.(requests := w.requests[request := Load(w.screen.active.value, None)]) else w
    case Read(request, page) => FireRead(w, request, page)
    case LoadReply(request) => FireLoaded(w, request)
    case Send(item, request) =>
      w.(screen := OnSend(w.screen, item, request), requests := w.requests[request := Deliver(item)], sent := w.sent[item.clientId := item])
    case Retry(item, request) =>
      w.(screen := OnRetry(w.screen, item, request), requests := w.requests[request := Deliver(Again(item))])
    case Cancel(clientId) =>
      w.(screen := OnCancel(w.screen, clientId), cancelled := w.cancelled + {clientId},
         aborted := if clientId in w.screen.uploads then w.aborted + {w.screen.uploads[clientId]} else w.aborted)
    case Store(clientId, messageId, author, createdAt) => FireStore(w, clientId, messageId, author, createdAt)
    case SendReply(request) => FireReply(w, request)
    case SendFails(request) =>
      w.(screen := OnDeliverFailed(w.screen, w.requests[request].item, request in w.aborted), requests := w.requests - {request})
    case Progress(request, fraction) => w.(screen := OnProgress(w.screen, w.requests[request].item.clientId, fraction))
    case EarlierStart(request, threadId, before) => w.(requests := w.requests[request := LoadEarlier(threadId, before, None)])
    case EarlierReply(request) => FireEarlier(w, request)
    case OtherPost(m) => w.(server := w.server[m.id := m])
    case OtherRemove(id) => w.(server := w.server[id := w.server[id].(removed := true, body := "")])
    case Hear(live) => FireHear(w, live)
  }

  // ---- what every run keeps ----

  predicate IsPending(list: seq<Pending>, clientId: Id) {
    exists i :: 0 <= i < |list| && list[i].clientId == clientId
  }

  predicate DistinctPending(list: seq<Pending>) {
    forall i, j :: 0 <= i < j < |list| ==> list[i].clientId != list[j].clientId
  }

  /** An item says what was asked to be sent, to the thread it was written in. */
  predicate AsSent(w: World, item: Pending) {
    && item.clientId in w.sent
    && item.threadId == w.sent[item.clientId].threadId && item.body == w.sent[item.clientId].body
  }

  ghost predicate ServerSound(w: World) {
    && OnePerClientId(w.server)
    && (forall id :: id in w.server ==> w.server[id].id == id)
    && (forall id :: id in w.server && w.server[id].clientId in w.sent ==>
          && w.server[id].threadId == w.sent[w.server[id].clientId].threadId
          && (!w.server[id].removed ==> w.server[id].body == w.sent[w.server[id].clientId].body))
  }

  ghost predicate RequestsSound(w: World) {
    forall r :: r in w.requests && w.requests[r].Deliver? ==> AsSent(w, w.requests[r].item)
  }

  ghost predicate PendingSound(w: World) {
    && DistinctPending(w.screen.pending)
    && (forall i :: 0 <= i < |w.screen.pending| ==> AsSent(w, w.screen.pending[i]))
  }

  /** Nothing confirmed or cancelled is shown as sending or failed. */
  ghost predicate SettledStaysSettled(w: World) {
    && (forall i :: 0 <= i < |w.screen.pending| ==>
          w.screen.pending[i].clientId !in w.confirmed && w.screen.pending[i].clientId !in w.cancelled)
    && (forall c :: c in w.confirmed ==> HasRow(w.server, c))
    && (forall c :: c in w.cancelled ==> c in w.sent)
  }

  predicate HasRow(server: map<Id, Message>, clientId: Id) {
    exists id :: id in server && server[id].clientId == clientId
  }

  /** Everything ever queued is still pending, or was cancelled, or is kept by the server. */
  ghost predicate NothingLost(w: World) {
    forall c :: c in w.sent ==>
      IsPending(w.screen.pending, c) || c in w.cancelled || Stored(w.server, w.sent[c].threadId, c)
  }

  ghost predicate MessagesSound(w: World) {
    && DistinctIds(w.screen.messages)
    && (forall i :: 0 <= i < |w.screen.messages| ==> CopyOf(w.server, w.screen.messages[i]))
  }

  ghost predicate OwnThread(w: World) {
    w.drawn && !w.strayed && w.screen.messages != [] ==> w.screen.active.Some? && AllOf(w.screen.messages, w.screen.active.value)
  }

  /** Whatever a load has read is of its thread and genuine. */
  ghost predicate PagesSound(w: World) {
    forall r :: HasPage(w, r) ==> PageOf(w.server, w.requests[r].threadId, w.requests[r].read.value.messages)
  }

  /** A request that would deliver this client id, and has not been aborted. */
  predicate Delivers(w: World, request: Id, clientId: Id) {
    IsDelivery(w, request) && w.requests[request].item.clientId == clientId && request !in w.aborted
  }

  predicate InFlight(w: World, clientId: Id) {
    exists r :: r in w.requests && Delivers(w, r, clientId)
  }

  ghost predicate IsSending(list: seq<Pending>, clientId: Id) {
    exists p :: p in list && p.clientId == clientId && p.status == Sending
  }

  /** Whatever is shown as sending has an attempt in flight. */
  ghost predicate SendingIsInFlight(w: World) {
    forall c :: IsSending(w.screen.pending, c) ==> InFlight(w, c)
  }

  /** A registered upload is in flight, and of the client id it is registered for. */
  ghost predicate UploadsSound(w: World) {
    forall c :: c in w.screen.uploads ==>
      IsDelivery(w, w.screen.uploads[c]) && w.requests[w.screen.uploads[c]].item.clientId == c
  }

  ghost predicate Invariant(w: World) {
    && ServerSound(w) && RequestsSound(w) && PendingSound(w) && SettledStaysSettled(w)
    && NothingLost(w) && MessagesSound(w) && OwnThread(w) && PagesSound(w)
    && UploadsSound(w) && SendingIsInFlight(w)
  }

  lemma {:induction false} FilterKeepsDistinctPending(list: seq<Pending>, keep: Pending -> bool)
    requires DistinctPending(list)
    ensures DistinctPending(Filter(list, keep))
  {
    if list != [] {
      FilterKeepsDistinctPending(list[1..], keep);
      var rest := Filter(list[1..], keep);
      forall i | 0 <= i < |rest|
        ensures rest[i].clientId != list[0].clientId
      {
        assert rest[i] in list[1..];
      }
    }
  }

  lemma {:induction false} FilterKeepsDistinctIds(list: seq<Message>, keep: Message -> bool)
    requires DistinctIds(list)
    ensures DistinctIds(Filter(list, keep))
  {
    if list != [] {
      FilterKeepsDistinctIds(list[1..], keep);
      var rest := Filter(list[1..], keep);
      forall i | 0 <= i < |rest|
        ensures rest[i].id != list[0].id
      {
        assert rest[i] in list[1..];
      }
    }
  }

  lemma WithoutOnly(list: seq<Pending>, clientId: Id)
    requires DistinctPending(list)
    ensures DistinctPending(Without(list, clientId))
    ensures forall i :: 0 <= i < |Without(list, clientId)| ==>
              Without(list, clientId)[i] in list && Without(list, clientId)[i].clientId != clientId
    ensures forall c :: IsPending(list, c) && c != clientId ==> IsPending(Without(list, clientId), c)
  {
    var keep := (p: Pending) => p.clientId != clientId;
    var r := Filter(list, keep);
    FilterKeepsDistinctPending(list, keep);
    forall i | 0 <= i < |r|
      ensures r[i] in list && r[i].clientId != clientId
    {
      assert r[i] in r;
    }
    forall c | IsPending(list, c) && c != clientId
      ensures IsPending(r, c)
    {
      var i :| 0 <= i < |list| && list[i].clientId == c;
      assert keep(list[i]) && list[i] in r;
    }
  }

  lemma ShownOnce(list: seq<Message>, m: Message)
    requires DistinctIds(list)
    ensures DistinctIds(Shown(list, m))
    ensures forall i :: 0 <= i < |Shown(list, m)| ==> Shown(list, m)[i] == m || Shown(list, m)[i] in list
  {
  }

  lemma EarlierOnce(page: seq<Message>, list: seq<Message>)
    requires DistinctIds(page) && DistinctIds(list)
    ensures DistinctIds(NotYetShown(page, list) + list)
    ensures forall i :: 0 <= i < |NotYetShown(page, list)| ==>
              NotYetShown(page, list)[i] in page && !HasMessage(list, NotYetShown(page, list)[i].id)
  {
    var keep := (m: Message) => !HasMessage(list, m.id);
    var r := Filter(page, keep);
    FilterKeepsDistinctIds(page, keep);
    forall i | 0 <= i < |r|
      ensures r[i] in page && !HasMessage(list, r[i].id)
    {
      assert r[i] in r;
    }
  }

  // The screen's own list of pending sends, event by event.

  ghost predicate Sends(w: World) {
    RequestsSound(w) && PendingSound(w) && SettledStaysSettled(w) && NothingLost(w) && ServerSound(w)
  }

  lemma DroppingKeepsSends(w: World, w': World, clientId: Id)
    requires Sends(w) && w'.sent == w.sent && w'.server == w.server && RequestsSound(w')
    requires w'.screen.pending == Without(w.screen.pending, clientId)
    requires w'.confirmed <= w.confirmed + {clientId} && w'.cancelled <= w.cancelled + {clientId}
    requires HasRow(w.server, clientId) || w'.confirmed == w.confirmed
    requires clientId in w.sent || w'.cancelled == w.cancelled
    requires clientId in w.sent ==> clientId in w'.cancelled || Stored(w.server, w.sent[clientId].threadId, clientId)
    requires w.cancelled <= w'.cancelled
    ensures Sends(w')
  {
    WithoutOnly(w.screen.pending, clientId);
    forall i | 0 <= i < |w'.screen.pending|
      ensures AsSent(w', w'.screen.pending[i])
      ensures w'.screen.pending[i].clientId !in w'.confirmed && w'.screen.pending[i].clientId !in w'.cancelled
    {
      var j :| 0 <= j < |w.screen.pending| && w.screen.pending[j] == w'.screen.pending[i];
    }
  }

  /** Status and progress may change; which items there are, and what they say, may not. */
  predicate SameItems(list: seq<Pending>, list': seq<Pending>) {
    |list'| == |list| &&
    forall i :: 0 <= i < |list| ==>
      list'[i].clientId == list[i].clientId && list'[i].threadId == list[i].threadId && list'[i].body == list[i].body
  }

  lemma RestatingKeepsSends(w: World, w': World)
    requires Sends(w) && w'.sent == w.sent && w'.server == w.server && RequestsSound(w')
    requires SameItems(w.screen.pending, w'.screen.pending)
    requires w'.confirmed == w.confirmed && w'.cancelled == w.cancelled
    ensures Sends(w')
  {
    forall i | 0 <= i < |w'.screen.pending|
      ensures AsSent(w', w'.screen.pending[i])
      ensures w'.screen.pending[i].clientId !in w'.confirmed && w'.screen.pending[i].clientId !in w'.cancelled
    {
      assert AsSent(w, w.screen.pending[i]);
    }
    forall c | c in w'.sent
      ensures IsPending(w'.screen.pending, c) || c in w'.cancelled || Stored(w'.server, w'.sent[c].threadId, c)
    {
      if IsPending(w.screen.pending, c) {
        var i :| 0 <= i < |w.screen.pending| && w.screen.pending[i].clientId == c;
        assert w'.screen.pending[i].clientId == c;
      }
    }
  }

  lemma SendKeepsPending(w: World, item: Pending, request: Id)
    requires Sends(w) && Enabled(w, Send(item, request))
    ensures PendingSound(Fire(w, Send(item, request))) && SettledStaysSettled(Fire(w, Send(item, request)))
  {
    var w' := Fire(w, Send(item, request));
    assert w'.screen.pending[|w.screen.pending|] == item;
    forall i | 0 <= i < |w'.screen.pending|
      ensures AsSent(w', w'.screen.pending[i])
      ensures w'.screen.pending[i].clientId !in w'.confirmed && w'.screen.pending[i].clientId !in w'.cancelled
    {
      if i < |w.screen.pending| {
        assert AsSent(w, w.screen.pending[i]);
      }
    }
  }

  lemma SendLosesNothing(w: World, item: Pending, request: Id)
    requires Sends(w) && Enabled(w, Send(item, request))
    ensures NothingLost(Fire(w, Send(item, request)))
  {
    var w' := Fire(w, Send(item, request));
    assert w'.screen.pending[|w.screen.pending|] == item;
    forall c | c in w'.sent
      ensures IsPending(w'.screen.pending, c) || c in w'.cancelled || Stored(w'.server, w'.sent[c].threadId, c)
    {
      if c != item.clientId && IsPending(w.screen.pending, c) {
        var i :| 0 <= i < |w.screen.pending| && w.screen.pending[i].clientId == c;
        assert w'.screen.pending[i].clientId == c;
      }
    }
  }

  lemma SendKeepsSends(w: World, item: Pending, request: Id)
    requires Sends(w) && Enabled(w, Send(item, request))
    ensures Sends(Fire(w, Send(item, request)))
  {
    SendKeepsPending(w, item, request);
    SendLosesNothing(w, item, request);
  }

  /** The table only gains rows, each for a client id that had none, and a row's words only go. */
  ghost predicate ServerGrows(server: map<Id, Message>, server': map<Id, Message>) {
    forall id :: id in server ==>
      && id in server' && server'[id].id == server[id].id && IsFor(server'[id], server[id].threadId, server[id].clientId)
      && server'[id].createdAt == server[id].createdAt
      && (server'[id] == server[id] || server'[id].removed)
  }

  lemma GrowingKeepsSends(w: World, w': World)
    requires Sends(w) && w' == w.(server := w'.server) && ServerGrows(w.server, w'.server) && ServerSound(w')
    ensures Sends(w')
  {
    forall c | c in w.confirmed
      ensures HasRow(w'.server, c)
    {
      var id :| id in w.server && w.server[id].clientId == c;
      assert id in w'.server && w'.server[id].clientId == c;
    }
    forall c | c in w.sent && Stored(w.server, w.sent[c].threadId, c)
      ensures Stored(w'.server, w.sent[c].threadId, c)
    {
      var id :| id in w.server && IsFor(w.server[id], w.sent[c].threadId, c);
      assert id in w'.server && IsFor(w'.server[id], w.sent[c].threadId, c);
    }
  }

  /** A message arriving again under its client id, however late, is not saved again. */
  lemma StoreGrows(w: World, clientId: Id, messageId: Id, author: Option<Id>, createdAt: int)
    requires Sends(w) && Enabled(w, Store(clientId, messageId, author, createdAt))
    ensures var w' := FireStore(w, clientId, messageId, author, createdAt);
            && w' == w.(server := w'.server) && ServerGrows(w.server, w'.server) && ServerSound(w')
            && Stored(w'.server, w.sent[clientId].threadId, clientId)
            && if exists id :: id in w.server && w.server[id].clientId == clientId && w.server[id].threadId == w.sent[clientId].threadId
               then w'.server == w.server
               else
                 var item := w.sent[clientId];
                 w'.server == w.server[messageId := Message(messageId, item.threadId, clientId, author, item.body, createdAt, false, [])]
  {
    var w' := FireStore(w, clientId, messageId, author, createdAt);
    var thread := w.sent[clientId].threadId;
    assert !Stored(w.server, thread, clientId) ==> IsFor(w'.server[messageId], thread, clientId);
    assert forall id :: id in w.server && w.server[id].clientId == clientId && w.server[id].threadId == thread
                        ==> IsFor(w.server[id], thread, clientId);
  }

  lemma OthersGrow(w: World, event: Event)
    requires Sends(w) && Enabled(w, event) && (event.OtherPost? || event.OtherRemove?)
    ensures var w' := Fire(w, event);
            w' == w.(server := w'.server) && ServerGrows(w.server, w'.server) && ServerSound(w')
  {
    match event
    case OtherPost(m) => PostGrows(w, m);
    case OtherRemove(id) => RemoveGrows(w, id);
  }

  lemma PostGrows(w: World, m: Message)
    requires ServerSound(w) && Enabled(w, OtherPost(m))
    ensures var server' := w.server[m.id := m]; ServerGrows(w.server, server') && ServerSound(w.(server := server'))
  {
  }

  lemma RemoveGrows(w: World, id: Id)
    requires ServerSound(w) && id in w.server
    ensures var server' := w.server[id := w.server[id].(removed := true, body := "")];
            ServerGrows(w.server, server') && ServerSound(w.(server := server'))
  {
  }

  lemma ReplyKeepsSends(w: World, request: Id)
    requires Sends(w) && Enabled(w, SendReply(request))
    ensures Sends(Fire(w, SendReply(request)))
  {
    var item := w.requests[request].item;
    assert AsSent(w, item);
    var id := StoredId(w.server, item.threadId, item.clientId);
    assert HasRow(w.server, item.clientId);
    DroppingKeepsSends(w, FireReply(w, request), item.clientId);
  }

  lemma HearKeepsSends(w: World, live: LiveEvent)
    requires Sends(w) && Enabled(w, Hear(live))
    ensures Sends(FireHear(w, live))
  {
    if live.Posted? && w.screen.active == Some(live.threadId) {
      var m := live.message;
      assert HasRow(w.server, m.clientId);
      assert m.clientId in w.sent ==> Stored(w.server, w.sent[m.clientId].threadId, m.clientId);
      DroppingKeepsSends(w, FireHear(w, live), m.clientId);
    } else {
      RestatingKeepsSends(w, FireHear(w, live));
    }
  }

  lemma AttemptKeepsSends(w: World, event: Event)
    requires Sends(w) && Enabled(w, event) && (event.Retry? || event.SendFails? || event.Progress?)
    ensures Sends(Fire(w, event))
  {
    RestatingKeepsSends(w, Fire(w, event));
  }

  lemma LoadingKeepsSends(w: World, event: Event)
    requires Sends(w) && Enabled(w, event)
    requires event.Open? || event.Drawn? || event.Reload? || event.Read? || event.LoadReply?
             || event.EarlierStart? || event.EarlierReply?
    ensures Sends(Fire(w, event))
  {
    RestatingKeepsSends(w, Fire(w, event));
  }

  lemma TableKeepsSends(w: World, event: Event)
    requires Sends(w) && Enabled(w, event) && (event.Store? || event.OtherPost? || event.OtherRemove?)
    ensures Sends(Fire(w, event))
  {
    if event.Store? {
      StoreGrows(w, event.clientId, event.messageId, event.author, event.createdAt);
    } else {
      OthersGrow(w, event);
    }
    GrowingKeepsSends(w, Fire(w, event));
  }

  lemma CancelKeepsSends(w: World, clientId: Id)
    requires Sends(w) && Enabled(w, Cancel(clientId))
    ensures Sends(Fire(w, Cancel(clientId)))
  {
    DroppingKeepsSends(w, Fire(w, Cancel(clientId)), clientId);
  }

  lemma EventKeepsSends(w: World, event: Event)
    requires Sends(w) && Enabled(w, event)
    ensures Sends(Fire(w, event))
  {
    if event.Send? {
      SendKeepsSends(w, event.item, event.request);
    } else if event.Store? || event.OtherPost? || event.OtherRemove? {
      TableKeepsSends(w, event);
    } else if event.Cancel? {
      CancelKeepsSends(w, event.clientId);
    } else if event.SendReply? {
      ReplyKeepsSends(w, event.request);
    } else if event.Hear? {
      HearKeepsSends(w, event.live);
    } else if event.Retry? || event.SendFails? || event.Progress? {
      AttemptKeepsSends(w, event);
    } else {
      LoadingKeepsSends(w, event);
    }
  }

  // The list of messages, event by event.

  /** The messages may grow by genuine rows of the open thread, and may be replaced by a page of it. */
  lemma ShowingKeepsMessages(w: World, w': World, m: Message)
    requires MessagesSound(w) && OwnThread(w) && CopyOf(w'.server, m)
    requires ServerGrows(w.server, w'.server)
    requires w'.screen.messages == Shown(w.screen.messages, m) && w'.screen.active == w.screen.active == Some(m.threadId)
    requires w'.drawn == w.drawn && w'.strayed == w.strayed
    ensures MessagesSound(w') && OwnThread(w')
  {
    ShownOnce(w.screen.messages, m);
  }

  lemma SameMessagesKeep(w: World, w': World)
    requires MessagesSound(w) && OwnThread(w) && ServerGrows(w.server, w'.server)
    requires w'.screen.messages == w.screen.messages && (w'.screen.active == w.screen.active || !w'.drawn)
    requires w'.drawn ==> w.drawn && w'.strayed == w.strayed
    ensures MessagesSound(w') && OwnThread(w')
  {
  }

  lemma RewritingKeepsMessages(w: World, w': World)
    requires MessagesSound(w) && OwnThread(w) && w'.server == w.server
    requires |w'.screen.messages| == |w.screen.messages|
    requires forall i :: 0 <= i < |w.screen.messages| ==>
               && w'.screen.messages[i].id == w.screen.messages[i].id
               && IsFor(w'.screen.messages[i], w.screen.messages[i].threadId, w.screen.messages[i].clientId)
    requires w'.screen.active == w.screen.active && w'.drawn == w.drawn && w'.strayed == w.strayed
    ensures MessagesSound(w') && OwnThread(w')
  {
  }

  lemma EarlierKeepsMessages(w: World, request: Id)
    requires MessagesSound(w) && OwnThread(w) && PagesSound(w) && Enabled(w, EarlierReply(request))
    ensures var w' := FireEarlier(w, request); MessagesSound(w') && OwnThread(w')
  {
    var page := w.requests[request].read.value;
    EarlierOnce(page.messages, w.screen.messages);
    var w' := FireEarlier(w, request);
    var fresh' := NotYetShown(page.messages, w.screen.messages);
    forall i | 0 <= i < |w'.screen.messages|
      ensures CopyOf(w'.server, w'.screen.messages[i])
    {
      assert i < |fresh'| ==> w'.screen.messages[i] == fresh'[i];
    }
    assert page.messages == [] ==> fresh' == [];
  }

  lemma HearKeepsMessages(w: World, live: LiveEvent)
    requires MessagesSound(w) && OwnThread(w) && Enabled(w, Hear(live))
    ensures MessagesSound(FireHear(w, live)) && OwnThread(FireHear(w, live))
  {
    var w' := FireHear(w, live);
    if w.screen.active != Some(live.threadId) {
      SameMessagesKeep(w, w');
    } else if live.Posted? {
      ShowingKeepsMessages(w, w', live.message);
    } else {
      RewritingKeepsMessages(w, w');
    }
  }

  lemma ReplyKeepsMessages(w: World, request: Id)
    requires MessagesSound(w) && OwnThread(w) && ServerSound(w) && Enabled(w, SendReply(request))
    ensures MessagesSound(FireReply(w, request)) && OwnThread(FireReply(w, request))
  {
    var item := w.requests[request].item;
    var id := StoredId(w.server, item.threadId, item.clientId);
    var w' := FireReply(w, request);
    if w.screen.active == Some(item.threadId) {
      ShowingKeepsMessages(w, w', w.server[id]);
    } else {
      SameMessagesKeep(w, w');
    }
  }

  lemma LoadKeepsMessages(w: World, request: Id)
    requires MessagesSound(w) && OwnThread(w) && PagesSound(w) && Enabled(w, LoadReply(request))
    ensures MessagesSound(FireLoaded(w, request)) && OwnThread(FireLoaded(w, request))
  {
  }

  lemma QuietKeepsMessages(w: World, event: Event)
    requires MessagesSound(w) && OwnThread(w) && Enabled(w, event)
    requires event.Open? || event.Reload? || event.Read? || event.Send? || event.Retry? || event.Cancel?
             || event.SendFails? || event.Progress? || event.EarlierStart?
    ensures MessagesSound(Fire(w, event)) && OwnThread(Fire(w, event))
  {
    SameMessagesKeep(w, Fire(w, event));
  }

  lemma EventKeepsMessages(w: World, event: Event)
    requires Sends(w) && MessagesSound(w) && OwnThread(w) && PagesSound(w) && Enabled(w, event)
    ensures MessagesSound(Fire(w, event)) && OwnThread(Fire(w, event))
  {
    match event
    case Hear(live) => HearKeepsMessages(w, live);
    case SendReply(request) => ReplyKeepsMessages(w, request);
    case EarlierReply(request) => EarlierKeepsMessages(w, request);
    case Store(clientId, messageId, author, createdAt) =>
      StoreGrows(w, clientId, messageId, author, createdAt);
      SameMessagesKeep(w, Fire(w, event));
    case OtherPost(_) => OthersGrow(w, event); SameMessagesKeep(w, Fire(w, event));
    case OtherRemove(_) => OthersGrow(w, event); SameMessagesKeep(w, Fire(w, event));
    case LoadReply(request) => LoadKeepsMessages(w, request);
    case Drawn(_) =>
    case _ => QuietKeepsMessages(w, event);
  }

  // The pages on their way, event by event.

  lemma EventGrowsServer(w: World, event: Event)
    requires Sends(w) && Enabled(w, event)
    ensures ServerGrows(w.server, Fire(w, event).server)
  {
    match event
    case Store(clientId, messageId, author, createdAt) => StoreGrows(w, clientId, messageId, author, createdAt);
    case OtherPost(_) => OthersGrow(w, event);
    case OtherRemove(_) => OthersGrow(w, event);
    case _ =>
  }

  lemma GrowingKeepsPage(server: map<Id, Message>, server': map<Id, Message>, threadId: Id, list: seq<Message>)
    requires ServerGrows(server, server') && PageOf(server, threadId, list)
    ensures PageOf(server', threadId, list)
  {
  }

  /** A page in flight after an event was in flight before it, unless the event read it. */
  lemma PagesStay(w: World, event: Event, request: Id)
    requires Enabled(w, event) && HasPage(Fire(w, event), request) && !(event.Read? && event.request == request)
    ensures HasPage(w, request) && w.requests[request] == Fire(w, event).requests[request]
  {
  }

  lemma ReadIsPage(w: World, request: Id, page: Page)
    requires ServerSound(w) && Enabled(w, Read(request, page))
    ensures PageOf(w.server, w.requests[request].threadId, page.messages)
  {
  }

  lemma EventKeepsPages(w: World, event: Event)
    requires Sends(w) && PagesSound(w) && Enabled(w, event)
    ensures PagesSound(Fire(w, event))
  {
    var w' := Fire(w, event);
    EventGrowsServer(w, event);
    forall r | HasPage(w', r)
      ensures PageOf(w'.server, w'.requests[r].threadId, w'.requests[r].read.value.messages)
    {
      if event.Read? && event.request == r {
        ReadIsPage(w, r, event.page);
      } else {
        PagesStay(w, event, r);
        GrowingKeepsPage(w.server, w'.server, w'.requests[r].threadId, w'.requests[r].read.value.messages);
      }
    }
  }

  // The attempts in flight, event by event.

  lemma EventKeepsUploads(w: World, event: Event)
    requires UploadsSound(w) && Enabled(w, event)
    ensures UploadsSound(Fire(w, event))
  {
    match event
    case SendReply(_) => EndedKeepsUploads(w, event);
    case SendFails(_) => EndedKeepsUploads(w, event);
    case Send(_, _) => BegunKeepsUploads(w, event);
    case Retry(_, _) => BegunKeepsUploads(w, event);
    case Cancel(clientId) => CancelKeepsUploads(w, clientId);
    case _ => OthersKeepUploads(w, event);
  }

  lemma CancelKeepsUploads(w: World, clientId: Id)
    requires UploadsSound(w) && Enabled(w, Cancel(clientId))
    ensures UploadsSound(Fire(w, Cancel(clientId)))
  {
  }

  /** The deliveries in flight before an event that neither begins nor ends one. */
  lemma OthersKeepDeliveries(w: World, event: Event, request: Id)
    requires Enabled(w, event) && !event.SendReply? && !event.SendFails? && IsDelivery(w, request)
    ensures IsDelivery(Fire(w, event), request) && Fire(w, event).requests[request] == w.requests[request]
  {
  }

  lemma OthersKeepRegistered(w: World, event: Event)
    requires Enabled(w, event)
    requires !event.SendReply? && !event.SendFails? && !event.Send? && !event.Retry? && !event.Cancel?
    ensures Fire(w, event).screen.uploads == w.screen.uploads
  {
  }

  lemma EndedKeepsUploads(w: World, event: Event)
    requires UploadsSound(w) && Enabled(w, event) && (event.SendReply? || event.SendFails?)
    ensures UploadsSound(Fire(w, event))
  {
  }

  lemma BegunKeepsUploads(w: World, event: Event)
    requires UploadsSound(w) && Enabled(w, event) && (event.Send? || event.Retry?)
    ensures UploadsSound(Fire(w, event))
  {
  }

  lemma OthersKeepUploads(w: World, event: Event)
    requires UploadsSound(w) && Enabled(w, event)
    requires !event.SendReply? && !event.SendFails? && !event.Send? && !event.Retry? && !event.Cancel?
    ensures UploadsSound(Fire(w, event))
  {
    OthersKeepRegistered(w, event);
    forall c | c in w.screen.uploads
      ensures IsDelivery(Fire(w, event), w.screen.uploads[c])
      ensures Fire(w, event).requests[w.screen.uploads[c]] == w.requests[w.screen.uploads[c]]
    {
      OthersKeepDeliveries(w, event, w.screen.uploads[c]);
    }
  }

  /** The event ends the attempts of a client id, or one of them. */
  ghost predicate Ends(w: World, event: Event, clientId: Id)
    requires Enabled(w, event)
  {
    || (event.Cancel? && event.clientId == clientId)
    || (event.SendReply? && w.requests[event.request].item.clientId == clientId)
    || (event.SendFails? && w.requests[event.request].item.clientId == clientId && event.request !in w.aborted)
  }

  /** Aborting one client id's upload, and answering any request, leaves the deliveries of others. */
  lemma AttemptsGoOn(w: World, event: Event, clientId: Id, request: Id)
    requires UploadsSound(w) && Enabled(w, event) && !Ends(w, event, clientId) && Delivers(w, request, clientId)
    ensures Delivers(Fire(w, event), request, clientId)
  {
  }

  lemma FlightGoesOn(w: World, event: Event, clientId: Id)
    requires UploadsSound(w) && Enabled(w, event) && !Ends(w, event, clientId) && InFlight(w, clientId)
    ensures InFlight(Fire(w, event), clientId)
  {
    var r :| r in w.requests && Delivers(w, r, clientId);
    AttemptsGoOn(w, event, clientId, r);
  }

  lemma RestatedSending(list: seq<Pending>, list': seq<Pending>, clientId: Id)
    requires |list'| == |list| && IsSending(list', clientId)
    requires forall i :: 0 <= i < |list| ==> list'[i].clientId == list[i].clientId
                                             && (list[i].clientId == clientId && list'[i].status == Sending ==> list[i].status == Sending)
    ensures IsSending(list, clientId)
  {
    var p :| p in list' && p.clientId == clientId && p.status == Sending;
    var i :| 0 <= i < |list'| && list'[i] == p;
    assert list[i] in list;
  }

  lemma AttemptSending(w: World, event: Event, clientId: Id)
    requires Enabled(w, event) && (event.Retry? || event.SendFails? || event.Progress?)
    requires IsSending(Fire(w, event).screen.pending, clientId)
    ensures (event.Retry? && event.item.clientId == clientId) || (!Ends(w, event, clientId) && IsSending(w.screen.pending, clientId))
  {
    if !(event.Retry? && event.item.clientId == clientId) {
      RestatedSending(w.screen.pending, Fire(w, event).screen.pending, clientId);
    }
  }

  lemma DroppedSending(w: World, event: Event, clientId: Id)
    requires Enabled(w, event) && (event.Cancel? || event.SendReply? || event.Hear?)
    requires IsSending(Fire(w, event).screen.pending, clientId)
    ensures !Ends(w, event, clientId) && IsSending(w.screen.pending, clientId)
  {
  }

  lemma OtherSending(w: World, event: Event)
    requires Enabled(w, event)
    requires !event.Send? && !event.Retry? && !event.SendFails? && !event.Progress? && !event.Cancel? && !event.SendReply? && !event.Hear?
    ensures Fire(w, event).screen.pending == w.screen.pending
  {
  }

  /** What is shown as sending was so before, and the event has not ended its attempts; or the event began one. */
  lemma SendingBefore(w: World, event: Event, clientId: Id)
    requires Enabled(w, event) && IsSending(Fire(w, event).screen.pending, clientId)
    ensures || ((event.Send? || event.Retry?) && event.item.clientId == clientId)
            || (!Ends(w, event, clientId) && IsSending(w.screen.pending, clientId))
  {
    if event.Send? {
      SendSending(w, event.item, event.request, clientId);
    } else if event.Retry? || event.SendFails? || event.Progress? {
      AttemptSending(w, event, clientId);
    } else if event.Cancel? || event.SendReply? || event.Hear? {
      DroppedSending(w, event, clientId);
    } else {
      OtherSending(w, event);
    }
  }

  lemma SendSending(w: World, item: Pending, request: Id, clientId: Id)
    requires Enabled(w, Send(item, request)) && IsSending(Fire(w, Send(item, request)).screen.pending, clientId)
    ensures item.clientId == clientId || IsSending(w.screen.pending, clientId)
  {
  }

  /** Sending and retrying put an attempt in flight. */
  lemma BegunIsInFlight(w: World, event: Event)
    requires Enabled(w, event) && (event.Send? || event.Retry?)
    ensures InFlight(Fire(w, event), event.item.clientId)
  {
    assert Delivers(Fire(w, event), event.request, event.item.clientId);
  }

  lemma EventKeepsSending(w: World, event: Event)
    requires UploadsSound(w) && SendingIsInFlight(w) && Enabled(w, event)
    ensures SendingIsInFlight(Fire(w, event))
  {
    var w' := Fire(w, event);
    forall c | IsSending(w'.screen.pending, c)
      ensures InFlight(w', c)
    {
      SendingBefore(w, event, c);
      if (event.Send? || event.Retry?) && event.item.clientId == c {
        BegunIsInFlight(w, event);
      } else {
        FlightGoesOn(w, event, c);
      }
    }
  }

  // ---- every run ----

  ghost predicate CanRun(w: World, events: seq<Event>)
    decreases |events|
  {
    events == [] || (Enabled(w, events[0]) && CanRun(Fire(w, events[0]), events[1..]))
  }

  function Run(w: World, events: seq<Event>): World
    requires CanRun(w, events)
    decreases |events|
  {
    if events == [] then w else Run(Fire(w, events[0]), events[1..])
  }

  lemma {:induction false} RunKeepsInvariant(w: World, events: seq<Event>)
    requires Invariant(w) && CanRun(w, events)
    ensures Invariant(Run(w, events))
    decreases |events|
  {
    if events != [] {
      EventKeepsSends(w, events[0]);
      EventKeepsMessages(w, events[0]);
      EventKeepsPages(w, events[0]);
      EventKeepsUploads(w, events[0]);
      EventKeepsSending(w, events[0]);
      RunKeepsInvariant(Fire(w, events[0]), events[1..]);
    }
  }

  /**
   * Whatever happens, in whatever order: no message is shown twice; pending client ids stay
   * distinct; nothing confirmed or cancelled is shown as sending or failed; everything ever
   * queued is pending, cancelled, or kept by the server; the server keeps each client id once,
   * with the words and thread it was sent with; and the list shown is of the open thread,
   * unless an earlier page of another has been put into it.
   */
  lemma ThreadIsAlwaysSound(events: seq<Event>)
    requires CanRun(Fresh(), events)
    ensures var w := Run(Fresh(), events);
            && DistinctIds(w.screen.messages)
            && DistinctPending(w.screen.pending)
            && (forall i :: 0 <= i < |w.screen.pending| ==>
                  w.screen.pending[i].clientId !in w.confirmed && w.screen.pending[i].clientId !in w.cancelled)
            && NothingLost(w) && ServerSound(w) && OwnThread(w)
            && (forall i, j :: i in w.server && j in w.server
                               && w.server[i].clientId == w.server[j].clientId && w.server[i].threadId == w.server[j].threadId
                  ==> i == j)
            && (forall c :: c in w.sent ==>
                  || (exists p :: p in w.screen.pending && p.clientId == c) || c in w.cancelled
                  || (exists id :: id in w.server && w.server[id].clientId == c && w.server[id].threadId == w.sent[c].threadId
                                   && (w.server[id].removed || w.server[id].body == w.sent[c].body)))
  {
    RunKeepsInvariant(Fresh(), events);
    var w := Run(Fresh(), events);
    forall i, j | i in w.server && j in w.server && w.server[i].clientId == w.server[j].clientId
                  && w.server[i].threadId == w.server[j].threadId
      ensures i == j
    {
      assert IsFor(w.server[i], w.server[j].threadId, w.server[j].clientId);
    }
    forall c | c in w.sent
      ensures || (exists p :: p in w.screen.pending && p.clientId == c) || c in w.cancelled
              || (exists id :: id in w.server && w.server[id].clientId == c && w.server[id].threadId == w.sent[c].threadId
                               && (w.server[id].removed || w.server[id].body == w.sent[c].body))
    {
      NothingLostFor(w, c);
    }
  }

  lemma NothingLostFor(w: World, c: Id)
    requires NothingLost(w) && ServerSound(w) && c in w.sent
    ensures || (exists p :: p in w.screen.pending && p.clientId == c) || c in w.cancelled
            || (exists id :: id in w.server && w.server[id].clientId == c && w.server[id].threadId == w.sent[c].threadId
                             && (w.server[id].removed || w.server[id].body == w.sent[c].body))
  {
    if IsPending(w.screen.pending, c) {
      var i :| 0 <= i < |w.screen.pending| && w.screen.pending[i].clientId == c;
      assert w.screen.pending[i] in w.screen.pending;
    } else if c !in w.cancelled {
      var id :| id in w.server && IsFor(w.server[id], w.sent[c].threadId, c);
    }
  }

  lemma ConfirmedStaysOnce(w: World, event: Event)
    requires Enabled(w, event)
    ensures w.confirmed <= Fire(w, event).confirmed && w.cancelled <= Fire(w, event).cancelled
  {
  }

  lemma {:induction false} ConfirmedStaysConfirmed(w: World, events: seq<Event>)
    requires CanRun(w, events)
    ensures w.confirmed <= Run(w, events).confirmed && w.cancelled <= Run(w, events).cancelled
    decreases |events|
  {
    if events != [] {
      ConfirmedStaysOnce(w, events[0]);
      ConfirmedStaysConfirmed(Fire(w, events[0]), events[1..]);
    }
  }

  /** Once a send has been confirmed or cancelled, nothing that happens later shows it as sending or failed. */
  lemma ConfirmedNeverReturns(w: World, events: seq<Event>, clientId: Id)
    requires Invariant(w) && CanRun(w, events) && (clientId in w.confirmed || clientId in w.cancelled)
    ensures !IsPending(Run(w, events).screen.pending, clientId)
  {
    RunKeepsInvariant(w, events);
    ConfirmedStaysConfirmed(w, events);
  }

  // ---- what becomes of one item ----

  /** The client id an event is about. */
  function AboutClient(w: World, event: Event): Option<Id>
    requires Enabled(w, event)
  {
    match event
    case Send(item, _) => Some(item.clientId)
    case Retry(item, _) => Some(item.clientId)
    case Cancel(clientId) => Some(clientId)
    case SendReply(request) => Some(w.requests[request].item.clientId)
    case SendFails(request) => Some(w.requests[request].item.clientId)
    case Progress(request, _) => Some(w.requests[request].item.clientId)
    case Hear(live) => if live.Posted? then Some(live.message.clientId) else None
    case _ => None
  }

  /** Every item of other client ids is in both lists or in neither. */
  ghost predicate OthersSame(list: seq<Pending>, list': seq<Pending>, clientId: Option<Id>) {
    forall p: Pending :: Some(p.clientId) != clientId ==> (p in list <==> p in list')
  }

  lemma WithoutLeavesOthers(list: seq<Pending>, clientId: Id)
    ensures OthersSame(list, Without(list, clientId), Some(clientId))
  {
    var keep := (p: Pending) => p.clientId != clientId;
    forall p: Pending | Some(p.clientId) != Some(clientId)
      ensures p in list <==> p in Without(list, clientId)
    {
      assert keep(p);
    }
  }

  lemma MapLeavesOthers(list: seq<Pending>, list': seq<Pending>, clientId: Id)
    requires |list'| == |list|
    requires forall i :: 0 <= i < |list| ==> list'[i].clientId == list[i].clientId
    requires forall i :: 0 <= i < |list| ==> list[i].clientId == clientId || list'[i] == list[i]
    ensures OthersSame(list, list', Some(clientId))
  {
    forall p: Pending | Some(p.clientId) != Some(clientId)
      ensures p in list <==> p in list'
    {
      if p in list {
        var i :| 0 <= i < |list| && list[i] == p;
        assert list'[i] == p;
      }
      if p in list' {
        var i :| 0 <= i < |list| && list'[i] == p;
        assert list[i] == p;
      }
    }
  }

  lemma DropLeavesOthers(w: World, event: Event)
    requires Enabled(w, event) && (event.Cancel? || event.SendReply? || event.Hear?)
    ensures OthersSame(w.screen.pending, Fire(w, event).screen.pending, AboutClient(w, event))
  {
    match event
    case Cancel(clientId) => WithoutLeavesOthers(w.screen.pending, clientId);
    case SendReply(request) => WithoutLeavesOthers(w.screen.pending, w.requests[request].item.clientId);
    case Hear(live) => HearLeavesOthers(w, live);
  }

  lemma SendLeavesOthers(w: World, item: Pending, request: Id)
    requires Enabled(w, Send(item, request))
    ensures OthersSame(w.screen.pending, Fire(w, Send(item, request)).screen.pending, Some(item.clientId))
  {
    assert Fire(w, Send(item, request)).screen.pending == w.screen.pending + [item];
  }

  /** An event leaves every pending item but the one it is about exactly as it was. */
  lemma EventTouchesOnlyItsItem(w: World, event: Event)
    requires Sends(w) && Enabled(w, event)
    ensures OthersSame(w.screen.pending, Fire(w, event).screen.pending, AboutClient(w, event))
  {
    if event.Send? {
      SendLeavesOthers(w, event.item, event.request);
    } else if event.Cancel? || event.SendReply? || event.Hear? {
      DropLeavesOthers(w, event);
    } else if event.Retry? || event.SendFails? || event.Progress? {
      AttemptLeavesOthers(w, event, AboutClient(w, event).value);
    } else {
      OtherSending(w, event);
    }
  }

  lemma HearLeavesOthers(w: World, live: LiveEvent)
    ensures OthersSame(w.screen.pending, OnEvent(w.screen, live).pending, if live.Posted? then Some(live.message.clientId) else None)
  {
    if live.Posted? {
      WithoutLeavesOthers(w.screen.pending, live.message.clientId);
    }
  }

  lemma AttemptLeavesOthers(w: World, event: Event, clientId: Id)
    requires Enabled(w, event) && (event.Retry? || event.SendFails? || event.Progress?) && AboutClient(w, event) == Some(clientId)
    ensures OthersSame(w.screen.pending, Fire(w, event).screen.pending, Some(clientId))
  {
    MapLeavesOthers(w.screen.pending, Fire(w, event).screen.pending, clientId);
  }

  /** How an item is shown, by its client id. */
  ghost predicate ShownAs(list: seq<Pending>, clientId: Id, status: SendStatus) {
    forall p: Pending :: p in list && p.clientId == clientId ==> p.status == status
  }

  lemma FailureIsShown(w: World, request: Id, clientId: Id)
    requires Delivers(w, request, clientId)
    ensures ShownAs(Fire(w, SendFails(request)).screen.pending, clientId, Failed)
    ensures IsPending(w.screen.pending, clientId) ==> IsPending(Fire(w, SendFails(request)).screen.pending, clientId)
  {
    var list' := Fire(w, SendFails(request)).screen.pending;
    if IsPending(w.screen.pending, clientId) {
      var i :| 0 <= i < |w.screen.pending| && w.screen.pending[i].clientId == clientId;
      assert list'[i].clientId == clientId;
    }
  }

  /** The attempt settles what is shown: its failure as failed, with Retry, and its reply by taking it off. */
  ghost predicate Settles(w: World, request: Id, clientId: Id) {
    && Delivers(w, request, clientId)
    && IsPending(Fire(w, SendFails(request)).screen.pending, clientId)
    && ShownAs(Fire(w, SendFails(request)).screen.pending, clientId, Failed)
    && (Enabled(w, SendReply(request)) ==> !IsPending(Fire(w, SendReply(request)).screen.pending, clientId))
  }

  lemma DeliverySettles(w: World, request: Id, clientId: Id)
    requires Delivers(w, request, clientId) && IsPending(w.screen.pending, clientId)
    ensures Settles(w, request, clientId)
  {
    FailureIsShown(w, request, clientId);
    WithoutHasNone(w.screen.pending, clientId);
  }

  /** Nothing is stuck at "Sending…": after any run, whatever is shown so has an attempt in flight that will settle it. */
  lemma NothingIsStuckSending(events: seq<Event>, item: Pending)
    requires CanRun(Fresh(), events)
    requires item in Run(Fresh(), events).screen.pending && item.status == Sending
    ensures var w := Run(Fresh(), events); exists r :: r in w.requests && Settles(w, r, item.clientId)
  {
    RunKeepsInvariant(Fresh(), events);
    var w := Run(Fresh(), events);
    assert IsSending(w.screen.pending, item.clientId);
    var r :| r in w.requests && Delivers(w, r, item.clientId);
    DeliverySettles(w, r, item.clientId);
  }

  lemma WithoutHasNone(list: seq<Pending>, clientId: Id)
    ensures !IsPending(Without(list, clientId), clientId)
  {
    var r := Without(list, clientId);
    forall i | 0 <= i < |r|
      ensures r[i].clientId != clientId
    {
      assert r[i] in r;
    }
  }

  /** Every reply to loadEarlier comes while its thread is the open one: the guard load and deliver have. */
  ghost predicate EarlierGuarded(w: World, events: seq<Event>)
    requires CanRun(w, events)
    decreases |events|
  {
    events == [] ||
    (&& (events[0].EarlierReply? ==> w.screen.active == Some(w.requests[events[0].request].threadId))
     && EarlierGuarded(Fire(w, events[0]), events[1..]))
  }

  lemma {:induction false} GuardedNeverStrays(w: World, events: seq<Event>)
    requires CanRun(w, events) && EarlierGuarded(w, events) && !w.strayed
    ensures !Run(w, events).strayed
    decreases |events|
  {
    if events != [] {
      GuardedNeverStrays(Fire(w, events[0]), events[1..]);
    }
  }

  /** With that guard, whatever is drawn is of the open thread. */
  lemma GuardedShowsOwnThread(events: seq<Event>)
    requires CanRun(Fresh(), events) && EarlierGuarded(Fresh(), events)
    ensures var w := Run(Fresh(), events);
            w.drawn && w.screen.messages != [] ==> w.screen.active.Some? && AllOf(w.screen.messages, w.screen.active.value)
  {
    RunKeepsInvariant(Fresh(), events);
    GuardedNeverStrays(Fresh(), events);
  }

  /**
   * Without it, a reply to loadEarlier leaves the list the open thread's own exactly when its
   * thread is still open or its page is empty.
   */
  lemma EarlierReplyKeepsThreadExactly(w: World, request: Id)
    requires Invariant(w) && w.drawn && !w.strayed && Enabled(w, EarlierReply(request))
    ensures var s := FireEarlier(w, request).screen;
            (s.messages == [] || (s.active.Some? && AllOf(s.messages, s.active.value))) <==>
            w.screen.active == Some(w.requests[request].threadId) || w.requests[request].read.value.messages == []
  {
    var thread, page := w.requests[request].threadId, w.requests[request].read.value;
    var list, s := w.screen.messages, FireEarlier(w, request).screen;
    EarlierOnce(page.messages, list);
    EarlierKeepsMessages(w, request);
    if w.screen.active != Some(thread) && page.messages != [] {
      var m := page.messages[0];
      assert CopyOf(w.server, m);
      OtherThreadIsNotShown(w, m);
      assert m in NotYetShown(page.messages, list);
      assert m in s.messages;
    }
  }

  /** A message of another thread is not in the list of the open one. */
  lemma OtherThreadIsNotShown(w: World, m: Message)
    requires Invariant(w) && w.drawn && !w.strayed && CopyOf(w.server, m) && w.screen.active != Some(m.threadId)
    ensures !HasMessage(w.screen.messages, m.id)
  {
    forall i | 0 <= i < |w.screen.messages|
      ensures w.screen.messages[i].id != m.id
    {
      assert CopyOf(w.server, w.screen.messages[i]);
    }
  }

  // ---- what a load takes off the screen ----

  /** The rows of a message's thread that are newer than it. */
  ghost function Newer(server: map<Id, Message>, id: Id): set<Id>
    requires id in server
  {
    set other | other in server && server[other].threadId == server[id].threadId && server[other].createdAt > server[id].createdAt
  }

  /** Its own row, and the rows of its thread at least as new. */
  ghost function AtLeastAsNew(server: map<Id, Message>, id: Id): set<Id>
    requires id in server
  {
    set other | other in server && server[other].threadId == server[id].threadId && server[other].createdAt >= server[id].createdAt
  }

  function Ids(list: seq<Message>): (r: set<Id>)
    ensures forall id :: id in r <==> HasMessage(list, id)
  {
    set i | 0 <= i < |list| :: list[i].id
  }

  lemma {:induction false} DistinctIdsCount(list: seq<Message>)
    requires DistinctIds(list)
    ensures |Ids(list)| == |list|
  {
    if list != [] {
      var front, last := list[..|list| - 1], list[|list| - 1];
      DistinctIdsCount(front);
      assert Ids(list) == Ids(front) + {last.id};
    }
  }

  /** What a load reads holds the message only if it is stored then, with less than a page of newer rows. */
  lemma ReadHoldsOnlyLatest(server: map<Id, Message>, threadId: Id, list: seq<Message>, id: Id)
    requires LatestOf(server, threadId, None, list) && HasMessage(list, id)
    ensures id in server && server[id].threadId == threadId && |Newer(server, id)| < TEAM_PAGE_SIZE
  {
    var k :| 0 <= k < |list| && list[k].id == id;
    forall other | other in Newer(server, id)
      ensures other in Ids(list) - {id}
    {
      assert InRange(server, threadId, None, other);
    }
    DistinctIdsCount(list);
    SubsetIsSmaller(Newer(server, id), Ids(list) - {id});
  }

  /** And it holds it whenever it is stored and its row is among the latest page of rows. */
  lemma ReadHoldsLatest(server: map<Id, Message>, threadId: Id, list: seq<Message>, id: Id)
    requires LatestOf(server, threadId, None, list) && id in server && server[id].threadId == threadId
    requires |AtLeastAsNew(server, id)| <= TEAM_PAGE_SIZE
    ensures HasMessage(list, id)
  {
    if !HasMessage(list, id) {
      assert InRange(server, threadId, None, id);
      DistinctIdsCount(list);
      forall other | other in Ids(list) + {id}
        ensures other in AtLeastAsNew(server, id)
      {
      }
      SubsetIsSmaller(Ids(list) + {id}, AtLeastAsNew(server, id));
    }
  }

  lemma {:induction false} SubsetIsSmaller(a: set<Id>, b: set<Id>)
    requires a <= b
    ensures |a| <= |b|
  {
    assert b == a + (b - a);
  }

  /** The request's reply is not among the events. */
  predicate Unanswered(events: seq<Event>, request: Id) {
    LoadReply(request) !in events && EarlierReply(request) !in events
  }

  /** A page stays as it was read, whatever happens to the table until it arrives. */
  lemma {:induction false} PageWaits(w: World, events: seq<Event>, request: Id)
    requires CanRun(w, events) && HasPage(w, request) && Unanswered(events, request)
    ensures HasPage(Run(w, events), request) && Run(w, events).requests[request] == w.requests[request]
    decreases |events|
  {
    if events != [] {
      assert events[0] in events;
      PageWaitsOnce(w, events[0], request);
      PageWaits(Fire(w, events[0]), events[1..], request);
    }
  }

  lemma PageWaitsOnce(w: World, event: Event, request: Id)
    requires Enabled(w, event) && HasPage(w, request) && event != LoadReply(request) && event != EarlierReply(request)
    ensures HasPage(Fire(w, event), request) && Fire(w, event).requests[request] == w.requests[request]
  {
  }

  lemma HearKeepsListed(s: Screen, live: LiveEvent, id: Id)
    requires HasMessage(s.messages, id)
    ensures HasMessage(OnEvent(s, live).messages, id)
  {
    var k :| 0 <= k < |s.messages| && s.messages[k].id == id;
    assert OnEvent(s, live).messages[k].id == id;
  }

  lemma DeliveredKeepsListed(s: Screen, item: Pending, m: Message, id: Id)
    requires HasMessage(s.messages, id)
    ensures HasMessage(OnDelivered(s, item, m).messages, id)
  {
    var k :| 0 <= k < |s.messages| && s.messages[k].id == id;
    assert OnDelivered(s, item, m).messages[k].id == id;
  }

  lemma EarlierKeepsListed(s: Screen, page: Page, id: Id)
    requires HasMessage(s.messages, id)
    ensures HasMessage(OnEarlier(s, page).messages, id)
  {
    var k :| 0 <= k < |s.messages| && s.messages[k].id == id;
    assert OnEarlier(s, page).messages[|NotYetShown(page.messages, s.messages)| + k].id == id;
  }

  lemma OthersKeepList(w: World, event: Event)
    requires Enabled(w, event) && !event.Drawn? && !event.LoadReply? && !event.EarlierReply? && !event.SendReply? && !event.Hear?
    ensures Fire(w, event).screen.messages == w.screen.messages
  {
  }

  /** Only opening a thread, and a load of the open thread that did not read it, take a listed message off. */
  lemma TakenOffExactly(w: World, event: Event, id: Id)
    requires Enabled(w, event) && HasMessage(w.screen.messages, id)
    ensures !HasMessage(Fire(w, event).screen.messages, id) <==>
            || event.Drawn?
            || (&& event.LoadReply? && w.screen.active == Some(w.requests[event.request].threadId)
                && !HasMessage(w.requests[event.request].read.value.messages, id))
  {
    match event
    case Drawn(_) =>
    case LoadReply(_) =>
    case Hear(live) => HearKeepsListed(w.screen, live, id);
    case EarlierReply(request) => EarlierKeepsListed(w.screen, w.requests[request].read.value, id);
    case SendReply(request) =>
      var item := w.requests[request].item;
      DeliveredKeepsListed(w.screen, item, w.server[StoredId(w.server, item.threadId, item.clientId)], id);
    case _ => OthersKeepList(w, event);
  }

  /**
   * A load is read, anything happens, and its reply comes while its thread is the open one. A
   * listed message is then taken off exactly when the read did not hold it: it holds every
   * message that was stored among the latest page of rows, and none that was not yet stored
   * or had a page of newer ones.
   */
  lemma LoadTakesOffExactlyTheUnread(w: World, request: Id, page: Page, events: seq<Event>, id: Id)
    requires Enabled(w, Read(request, page)) && w.requests[request].Load?
    requires CanRun(Fire(w, Read(request, page)), events) && Unanswered(events, request)
    requires var w' := Run(Fire(w, Read(request, page)), events);
             w'.screen.active == Some(w.requests[request].threadId) && HasMessage(w'.screen.messages, id)
    ensures var w' := Run(Fire(w, Read(request, page)), events);
            && Enabled(w', LoadReply(request))
            && (HasMessage(Fire(w', LoadReply(request)).screen.messages, id) <==> HasMessage(page.messages, id))
    ensures HasMessage(page.messages, id) ==>
              id in w.server && w.server[id].threadId == w.requests[request].threadId && |Newer(w.server, id)| < TEAM_PAGE_SIZE
    ensures id in w.server && w.server[id].threadId == w.requests[request].threadId && |AtLeastAsNew(w.server, id)| <= TEAM_PAGE_SIZE
            ==> HasMessage(page.messages, id)
  {
    var w1 := Fire(w, Read(request, page));
    var w' := Run(w1, events);
    PageWaits(w1, events, request);
    TakenOffExactly(w', LoadReply(request), id);
    var thread := w.requests[request].threadId;
    if HasMessage(page.messages, id) {
      ReadHoldsOnlyLatest(w.server, thread, page.messages, id);
    }
    if id in w.server && w.server[id].threadId == thread && |AtLeastAsNew(w.server, id)| <= TEAM_PAGE_SIZE {
      ReadHoldsLatest(w.server, thread, page.messages, id);
    }
  }

  lemma {:induction false} RunGrowsServer(w: World, events: seq<Event>)
    requires Sends(w) && CanRun(w, events)
    ensures ServerGrows(w.server, Run(w, events).server)
    decreases |events|
  {
    if events != [] {
      var w1 := Fire(w, events[0]);
      EventGrowsServer(w, events[0]);
      EventKeepsSends(w, events[0]);
      RunGrowsServer(w1, events[1..]);
      ServerGrowsOn(w.server, w1.server, Run(w1, events[1..]).server);
    }
  }

  lemma ServerGrowsOn(a: map<Id, Message>, b: map<Id, Message>, c: map<Id, Message>)
    requires ServerGrows(a, b) && ServerGrows(b, c)
    ensures ServerGrows(a, c)
  {
  }

  lemma ConfirmedIsStored(w: World, clientId: Id)
    requires Sends(w) && clientId in w.confirmed && clientId in w.sent
    ensures Stored(w.server, w.sent[clientId].threadId, clientId)
  {
    var id :| id in w.server && w.server[id].clientId == clientId;
    assert IsFor(w.server[id], w.sent[clientId].threadId, clientId);
  }

  /**
   * Once a send is confirmed, a load read at any time after that never hides it: its reply
   * shows the message, unless a whole page of other rows is at least as new.
   */
  lemma LoadAfterConfirmationShowsIt(
      w: World, before: seq<Event>, request: Id, page: Page, after: seq<Event>, clientId: Id, id: Id)
    requires Invariant(w) && clientId in w.confirmed && clientId in w.sent
    requires CanRun(w, before) && Enabled(Run(w, before), Read(request, page))
    requires var w1 := Run(w, before);
             && w1.requests[request].Load? && w1.requests[request].threadId == w.sent[clientId].threadId
             && id in w1.server && IsFor(w1.server[id], w.sent[clientId].threadId, clientId)
             && |AtLeastAsNew(w1.server, id)| <= TEAM_PAGE_SIZE
             && CanRun(Fire(w1, Read(request, page)), after) && Unanswered(after, request)
             && Run(Fire(w1, Read(request, page)), after).screen.active == Some(w.sent[clientId].threadId)
    ensures var w2 := Run(Fire(Run(w, before), Read(request, page)), after);
            && id in w.server && w.server[id].clientId == clientId
            && Enabled(w2, LoadReply(request)) && HasMessage(Fire(w2, LoadReply(request)).screen.messages, id)
  {
    var w1 := Run(w, before);
    ReadHoldsLatest(w1.server, w.sent[clientId].threadId, page.messages, id);
    PageWaits(Fire(w1, Read(request, page)), after, request);
    ConfirmedIsStored(w, clientId);
    var row :| row in w.server && IsFor(w.server[row], w.sent[clientId].threadId, clientId);
    RunGrowsServer(w, before);
    RunKeepsInvariant(w, before);
    assert row == id;
  }

  lemma EventFirst(w: World, event: Event, events: seq<Event>)
    requires Enabled(w, event) && CanRun(Fire(w, event), events)
    ensures CanRun(w, [event] + events) && Run(w, [event] + events) == Run(Fire(w, event), events)
  {
    assert ([event] + events)[1..] == events;
  }

  /** The rows there were are there still, as they were. */
  ghost predicate KeepsRows(w: World, w': World) {
    forall id :: id in w.server ==> id in w'.server && w'.server[id] == w.server[id]
  }

  lemma SendIsDelivered(w: World, item: Pending, request: Id)
    requires Sends(w) && Enabled(w, Send(item, request))
    ensures var w1 := Fire(w, Send(item, request));
            && Sends(w1) && w1.server == w.server && w1.screen.active == w.screen.active
            && IsDelivery(w1, request) && w1.requests[request].item == item && w1.requests == w.requests[request := Deliver(item)]
            && !Stored(w1.server, item.threadId, item.clientId)
  {
    EventKeepsSends(w, Send(item, request));
  }

  lemma DeliveryIsStored(w: World, item: Pending, request: Id, messageId: Id, author: Option<Id>, createdAt: int)
    requires Sends(w) && IsDelivery(w, request) && w.requests[request].item == item && messageId !in w.server
    requires !Stored(w.server, item.threadId, item.clientId)
    ensures AsSent(w, item)
    ensures var w1 := Fire(w, Store(item.clientId, messageId, author, createdAt));
            && Sends(w1) && KeepsRows(w, w1) && w1.screen == w.screen && w1.requests == w.requests
            && messageId in w1.server && IsFor(w1.server[messageId], item.threadId, item.clientId)
            && Enabled(w1, SendReply(request))
  {
    EventKeepsSends(w, Store(item.clientId, messageId, author, createdAt));
    var w1 := Fire(w, Store(item.clientId, messageId, author, createdAt));
    assert IsFor(w1.server[messageId], item.threadId, item.clientId);
  }

  lemma ReplyConfirms(w: World, item: Pending, request: Id)
    requires Sends(w) && Enabled(w, SendReply(request)) && w.requests[request].item == item
    ensures var w1 := Fire(w, SendReply(request));
            && Sends(w1) && w1.server == w.server && w1.screen.active == w.screen.active
            && item.clientId in w1.confirmed && w1.requests == w.requests - {request}
  {
    EventKeepsSends(w, SendReply(request));
  }

  /** A send that reaches the server: stored, and its reply can come. */
  lemma StoredSend(w: World, item: Pending, request: Id, messageId: Id, author: Option<Id>, createdAt: int)
    requires Sends(w) && Enabled(w, Send(item, request)) && messageId !in w.server
    ensures var w1 := Fire(w, Send(item, request));
            && Enabled(w1, Store(item.clientId, messageId, author, createdAt))
            && var w2 := Fire(w1, Store(item.clientId, messageId, author, createdAt));
               && Enabled(w2, SendReply(request)) && Sends(w2) && w2.requests == w.requests[request := Deliver(item)]
               && w2.screen.active == w.screen.active
               && messageId in w2.server && w2.server[messageId].clientId == item.clientId
  {
    SendIsDelivered(w, item, request);
    DeliveryIsStored(Fire(w, Send(item, request)), item, request, messageId, author, createdAt);
  }

  /** And when it is answered, it is confirmed, with the rest as it was. */
  lemma AnsweredSend(w: World, w2: World, item: Pending, request: Id, messageId: Id)
    requires Sends(w2) && Enabled(w2, SendReply(request)) && request !in w.requests && w2.requests == w.requests[request := Deliver(item)]
    requires messageId in w2.server && w2.server[messageId].clientId == item.clientId
    ensures var w3 := Fire(w2, SendReply(request));
            && Sends(w3) && item.clientId in w3.confirmed && w3.screen.active == w2.screen.active && w3.requests == w.requests
            && messageId in w3.server && w3.server[messageId].clientId == item.clientId
  {
    ReplyConfirms(w2, item, request);
    assert w.requests[request := Deliver(item)] - {request} == w.requests;
  }

  /**
   * So a page read before a send was stored, arriving after its reply, takes the message off
   * the screen: it is confirmed and stored, and neither listed nor pending until the next load.
   */
  lemma StalePageHidesAConfirmedSend(
      w: World, load: Id, item: Pending, request: Id, messageId: Id, author: Option<Id>, createdAt: int)
    requires Invariant(w) && Enabled(w, LoadReply(load)) && w.requests[load].threadId == item.threadId
    requires w.screen.active == Some(item.threadId) && w.screen.canPost
    requires Enabled(w, Send(item, request)) && messageId !in w.server
    ensures var events := [Send(item, request)] + ([Store(item.clientId, messageId, author, createdAt)]
                          + ([SendReply(request)] + ([LoadReply(load)] + [])));
            && CanRun(w, events)
            && var w' := Run(w, events);
               && item.clientId in w'.confirmed && messageId in w'.server && w'.server[messageId].clientId == item.clientId
               && !HasMessage(w'.screen.messages, messageId) && !IsPending(w'.screen.pending, item.clientId)
  {
    StoredSend(w, item, request, messageId, author, createdAt);
    var store := Store(item.clientId, messageId, author, createdAt);
    var w1 := Fire(w, Send(item, request));
    var w2 := Fire(w1, store);
    AnsweredSend(w, w2, item, request, messageId);
    var w3 := Fire(w2, SendReply(request));
    PageIsOfThen(w, load, messageId);
    EventKeepsSends(w3, LoadReply(load));
    EventFirst(w3, LoadReply(load), []);
    EventFirst(w2, SendReply(request), [LoadReply(load)] + []);
    EventFirst(w1, store, [SendReply(request)] + ([LoadReply(load)] + []));
    EventFirst(w, Send(item, request), [store] + ([SendReply(request)] + ([LoadReply(load)] + [])));
  }

  lemma PageIsOfThen(w: World, load: Id, messageId: Id)
    requires Invariant(w) && Enabled(w, LoadReply(load)) && messageId !in w.server
    ensures !HasMessage(w.requests[load].read.value.messages, messageId)
  {
    var list := w.requests[load].read.value.messages;
    assert forall i :: 0 <= i < |list| ==> CopyOf(w.server, list[i]);
  }

  // ---- what each event does to the lists, by the lists alone ----

  /** The message is listed, under the client id it was sent with. */
  ghost predicate IsListed(list: seq<Message>, id: Id, clientId: Id) {
    exists k :: 0 <= k < |list| && list[k].id == id && list[k].clientId == clientId
  }

  /** What was listed is there still, in its order; the message is listed, last if it is new. */
  ghost predicate GainsMessage(list: seq<Message>, list': seq<Message>, m: Message) {
    && list <= list'
    && IsListed(list', m.id, m.clientId)
    && list' == if exists k :: 0 <= k < |list| && list[k].id == m.id then list else list + [m]
  }

  /** The items of that client id are gone, and the others are there in their order. */
  ghost predicate LosesItem(list: seq<Pending>, list': seq<Pending>, clientId: Id) {
    IsPart(list', list) && forall p :: p in list' <==> p in list && p.clientId != clientId
  }

  lemma WithoutLosesItem(list: seq<Pending>, clientId: Id)
    ensures LosesItem(list, Without(list, clientId), clientId)
  {
    FilterIsPart(list, (p: Pending) => p.clientId != clientId);
  }

  lemma ShownGains(w: World, m: Message)
    requires MessagesSound(w) && CopyOf(w.server, m)
    ensures GainsMessage(w.screen.messages, Shown(w.screen.messages, m), m)
  {
    var list, list' := w.screen.messages, Shown(w.screen.messages, m);
    if HasMessage(list, m.id) {
      var k :| 0 <= k < |list| && list[k].id == m.id;
      assert CopyOf(w.server, list[k]);
      assert list'[k].id == m.id && list'[k].clientId == m.clientId;
    } else {
      assert list'[|list|] == m;
    }
  }

  /**
   * A reply puts the stored message on the screen, when its thread is open: what was listed stays,
   * and a new message comes last. In another thread the list is as it was. Either way its item is
   * no longer pending.
   */
  lemma ReplyIsShown(w: World, request: Id, id: Id)
    requires Invariant(w) && Enabled(w, SendReply(request))
    requires var item := w.requests[request].item;
             id in w.server && w.server[id].clientId == item.clientId && w.server[id].threadId == item.threadId
    ensures var item, s, s' := w.requests[request].item, w.screen, Fire(w, SendReply(request)).screen;
            && (if s.active == Some(item.threadId) then GainsMessage(s.messages, s'.messages, w.server[id])
                else s'.messages == s.messages)
            && LosesItem(s.pending, s'.pending, item.clientId)
            && s'.uploads.Keys == s.uploads.Keys - {item.clientId} && s'.active == s.active
  {
    var item := w.requests[request].item;
    assert IsFor(w.server[id], item.threadId, item.clientId);
    assert id == StoredId(w.server, item.threadId, item.clientId);
    WithoutLosesItem(w.screen.pending, item.clientId);
    ShownGains(w, w.server[id]);
  }

  /** So does hearing of a message in the open thread, whoever sent it; elsewhere nothing changes. */
  lemma PostIsShown(w: World, thread: Id, m: Message)
    requires Invariant(w) && Enabled(w, Hear(Posted(thread, m)))
    ensures var s, s' := w.screen, Fire(w, Hear(Posted(thread, m))).screen;
            if s.active == Some(thread)
            then GainsMessage(s.messages, s'.messages, m) && LosesItem(s.pending, s'.pending, m.clientId)
            else s' == s
  {
    WithoutLosesItem(w.screen.pending, m.clientId);
    ShownGains(w, m);
  }

  /** Nothing opens a thread or answers a load. */
  predicate NoLoads(events: seq<Event>) {
    forall i :: 0 <= i < |events| ==> !events[i].Drawn? && !events[i].LoadReply?
  }

  lemma {:induction false} ListedStays(w: World, events: seq<Event>, id: Id)
    requires CanRun(w, events) && NoLoads(events) && HasMessage(w.screen.messages, id)
    ensures HasMessage(Run(w, events).screen.messages, id)
    decreases |events|
  {
    if events != [] {
      TakenOffExactly(w, events[0], id);
      ListedStays(Fire(w, events[0]), events[1..], id);
    }
  }

  lemma ListedIsListed(w: World, id: Id)
    requires Invariant(w) && HasMessage(w.screen.messages, id)
    ensures id in w.server && IsListed(w.screen.messages, id, w.server[id].clientId)
  {
    var k :| 0 <= k < |w.screen.messages| && w.screen.messages[k].id == id;
    assert CopyOf(w.server, w.screen.messages[k]);
  }

  /** From the reply to a send in the open thread on, its message is listed, until a thread is opened or a load answered. */
  lemma ConfirmedStaysListed(w: World, request: Id, id: Id, events: seq<Event>)
    requires Invariant(w) && Enabled(w, SendReply(request))
    requires var item := w.requests[request].item;
             && id in w.server && w.server[id].clientId == item.clientId && w.server[id].threadId == item.threadId
             && w.screen.active == Some(item.threadId)
    requires CanRun(Fire(w, SendReply(request)), events) && NoLoads(events)
    ensures IsListed(Run(Fire(w, SendReply(request)), events).screen.messages, id, w.requests[request].item.clientId)
  {
    var w1 := Fire(w, SendReply(request));
    ReplyIsShown(w, request, id);
    EventFirst(w, SendReply(request), []);
    RunKeepsInvariant(w, [SendReply(request)]);
    ListedStays(w1, events, id);
    RunKeepsInvariant(w1, events);
    RunGrowsServer(w1, events);
    ListedIsListed(Run(w1, events), id);
  }

  /** And from hearing of it in the open thread on. */
  lemma PostStaysListed(w: World, thread: Id, m: Message, events: seq<Event>)
    requires Invariant(w) && Enabled(w, Hear(Posted(thread, m))) && w.screen.active == Some(thread)
    requires CanRun(Fire(w, Hear(Posted(thread, m))), events) && NoLoads(events)
    ensures IsListed(Run(Fire(w, Hear(Posted(thread, m))), events).screen.messages, m.id, m.clientId)
  {
    var event := Hear(Posted(thread, m));
    var w1 := Fire(w, event);
    PostIsShown(w, thread, m);
    EventFirst(w, event, []);
    RunKeepsInvariant(w, [event]);
    ListedStays(w1, events, m.id);
    RunKeepsInvariant(w1, events);
    RunGrowsServer(w1, events);
    ListedIsListed(Run(w1, events), m.id);
  }

  /** A load shows exactly its page, in the thread it was read for and in no other. */
  lemma LoadIsShown(w: World, request: Id)
    requires Enabled(w, LoadReply(request))
    ensures var page, s, s' := w.requests[request].read.value, w.screen, Fire(w, LoadReply(request)).screen;
            if s.active != Some(w.requests[request].threadId) then s' == s
            else && s'.messages == page.messages && s'.canPost == page.canPost && (s'.hasEarlier <==> |page.messages| >= 50)
                 && s'.pending == s.pending && s'.uploads == s.uploads && s'.active == s.active
  {
  }

  /** An earlier page goes in front, without what is listed already and otherwise whole and in its order. */
  lemma EarlierIsShown(w: World, request: Id) returns (front: seq<Message>)
    requires Enabled(w, EarlierReply(request))
    ensures var page, s := w.requests[request].read.value.messages, w.screen;
            && Fire(w, EarlierReply(request)).screen == s.(messages := front + s.messages, hasEarlier := |page| >= 50)
            && IsPart(front, page)
            && forall m :: m in front <==> m in page && forall k :: 0 <= k < |s.messages| ==> s.messages[k].id != m.id
  {
    var page, s := w.requests[request].read.value.messages, w.screen;
    front := NotYetShown(page, s.messages);
    FilterIsPart(page, (m: Message) => !HasMessage(s.messages, m.id));
  }

  /** A removed message is replaced where it stands and keeps its reactions; reactions change one message. */
  lemma HeardChangesOneMessage(w: World, live: LiveEvent)
    requires Enabled(w, Hear(live)) && !live.Posted?
    ensures var s, s' := w.screen, Fire(w, Hear(live)).screen;
            if s.active != Some(live.threadId) then s' == s
            else && s'.pending == s.pending && |s'.messages| == |s.messages|
                 && forall k :: 0 <= k < |s.messages| ==>
                      s'.messages[k] ==
                      match live
                      case Removed(_, gone) => if s.messages[k].id == gone.id then gone.(reactions := s.messages[k].reactions) else s.messages[k]
                      case Reacted(_, id, reactions) => if s.messages[k].id == id then s.messages[k].(reactions := reactions) else s.messages[k]
                      case Posted(_, _) => s.messages[k]
  {
  }

  /** A failed attempt marks its item and no other, unless it was aborted; an attempt's progress is its file's. */
  lemma AttemptChangesOneItem(w: World, event: Event)
    requires Enabled(w, event) && (event.SendFails? || event.Progress?)
    ensures var c, s, s' := w.requests[event.request].item.clientId, w.screen, Fire(w, event).screen;
            && s'.messages == s.messages && s'.active == s.active && |s'.pending| == |s.pending|
            && (forall k :: 0 <= k < |s.pending| ==>
                  var p := s.pending[k];
                  s'.pending[k] ==
                  if p.clientId != c then p
                  else if event.SendFails? then if event.request in w.aborted then p else p.(status := Failed)
                  else if p.progress.Some? then p.(progress := Some(event.fraction)) else p)
            && (event.SendFails? ==> s'.uploads.Keys == s.uploads.Keys - {c})
  {
  }

  /** Sending adds its item last; a file's upload can be aborted, under its client id. */
  lemma SendIsShown(w: World, item: Pending, request: Id)
    requires Enabled(w, Send(item, request))
    ensures var s, s' := w.screen, Fire(w, Send(item, request)).screen;
            && s'.pending == s.pending + [item] && s'.messages == s.messages && s'.active == s.active
            && s'.uploads == if item.progress.Some? then s.uploads[item.clientId := request] else s.uploads
  {
  }

  /** Retrying shows the same words, for the same thread, as sending from the start again. */
  lemma RetryIsShown(w: World, item: Pending, request: Id)
    requires Enabled(w, Retry(item, request))
    ensures var w' := Fire(w, Retry(item, request));
            var again := Pending(item.clientId, item.threadId, item.body, Sending, if item.progress.Some? then Some(0.0) else None);
            && w'.requests[request] == Deliver(again)
            && w'.screen.messages == w.screen.messages && |w'.screen.pending| == |w.screen.pending|
            && (forall k :: 0 <= k < |w.screen.pending| ==>
                  w'.screen.pending[k] == if w.screen.pending[k].clientId == item.clientId then again else w.screen.pending[k])
            && w'.screen.uploads == if item.progress.Some? then w.screen.uploads[item.clientId := request] else w.screen.uploads
  {
  }

  /** Cancelling takes the item off and aborts its upload and no other. */
  lemma CancelIsShown(w: World, clientId: Id)
    requires Enabled(w, Cancel(clientId))
    ensures var w' := Fire(w, Cancel(clientId));
            && LosesItem(w.screen.pending, w'.screen.pending, clientId) && w'.screen.messages == w.screen.messages
            && w'.screen.uploads.Keys == w.screen.uploads.Keys - {clientId}
            && w'.aborted == if clientId in w.screen.uploads then w.aborted + {w.screen.uploads[clientId]} else w.aborted
  {
    WithoutLosesItem(w.screen.pending, clientId);
  }

  /** Opening a thread empties the list once it is drawn, and asks for the thread's latest page; pending sends stay. */
  lemma OpeningEmptiesTheList(w: World, request: Id)
    requires Enabled(w, Drawn(request))
    ensures var w' := Fire(w, Drawn(request));
            && w'.screen == w.screen.(messages := [])
            && w'.requests == if w.screen.active.Some? then w.requests[request := Load(w.screen.active.value, None)] else w.requests
  {
  }
}
