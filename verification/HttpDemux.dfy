/** Responses of many HTTP requests over one websocket: header messages and 32-byte-tagged data frames, written to the
    connection of the request they name. */
module HttpDemux {
  import opened Prelude

  const ID_LENGTH := 32

  type Id = Bytes

  /** A client connection: what was written to it, and whether writes still succeed. */
  datatype Conn = Conn(out: Bytes, open: bool)

  /** Counters of a registered request: payload bytes received, and the announced length. */
  datatype Req = Req(received: int, expected: int)

  datatype State = State(conns: map<Id, Conn>, reqs: map<Id, Req>)

  const INITIAL := State(map[], map[])

  /** A request arrives; a header message (`None`: its length cannot be read); an error message; a data frame; the
      client hangs up; the request's handler returns. */
  datatype Event =
    | Opens(id: Id)
    | Header(id: Id, header: Bytes, length: Option<int>)
    | Fails(id: Id)
    | Frame(data: Bytes)
    | Hangs(id: Id)
    | Ends(id: Id)

  /** Request ids are fresh. Messages may come at any time, and name any id. */
  predicate Enabled(st: State, e: Event) {
    match e
    case Opens(id) => |id| == ID_LENGTH && id !in st.conns && id !in st.reqs
    case Hangs(id) => id in st.conns
    case Ends(id) => id in st.conns
    case _ => true
  }

  function Written(c: Conn, data: Bytes): Conn { if c.open then c.(out := c.out + data) else c }

  function Close(c: Conn): Conn { c.(open := false) }

  function OnHeader(st: State, id: Id, header: Bytes, length: Option<int>): State
  {
    if length.None? || id !in st.reqs || id !in st.conns then st
    else
      var c := Written(st.conns[id], header);
      State(st.conns[id := if length.value == 0 then Close(c) else c],
            st.reqs[id := st.reqs[id].(expected := length.value)])
  }

  function OnFrame(st: State, id: Id, payload: Bytes): State
  {
    if id !in st.reqs || id !in st.conns then st
    else
      var r := st.reqs[id].(received := st.reqs[id].received + |payload|);
      var c := Written(st.conns[id], payload);
      if r.received >= r.expected then State(st.conns[id := Close(c)], st.reqs - {id})
      else State(st.conns[id := c], st.reqs[id := r])
  }

  function Apply(st: State, e: Event): State
    requires Enabled(st, e)
  {
    match e
    case Opens(id) => State(st.conns[id := Conn([], true)], st.reqs[id := Req(0, 0)])
    case Header(id, header, length) => OnHeader(st, id, header, length)
    case Fails(id) => if id in st.reqs && id in st.conns then st.(conns := st.conns[id := Close(st.conns[id])]) else st
    case Frame(data) => if |data| <= ID_LENGTH then st else OnFrame(st, data[..ID_LENGTH], data[ID_LENGTH..])
    case Hangs(id) => st.(conns := st.conns[id := Close(st.conns[id])])
    case Ends(id) => State(st.conns[id := Close(st.conns[id])], st.reqs - {id})
  }

  ghost predicate Run(trace: seq<State>, es: seq<Event>) {
    && |trace| == |es| + 1 && trace[0] == INITIAL
    && forall i :: 0 <= i < |es| ==> Enabled(trace[i], es[i]) && trace[i + 1] == Apply(trace[i], es[i])
  }

  /** The request that an event is about. */
  function About(e: Event): Option<Id> {
    match e
    case Opens(id) => Some(id)
    case Header(id, _, _) => Some(id)
    case Fails(id) => Some(id)
    case Frame(data) => if |data| <= ID_LENGTH then None else Some(data[..ID_LENGTH])
    case Hangs(id) => Some(id)
    case Ends(id) => Some(id)
  }

  /** One request as the tunnel sees it. */
  datatype View = View(conn: Option<Conn>, req: Option<Req>)

  function ViewOf(st: State, id: Id): View {
    View(if id in st.conns then Some(st.conns[id]) else None, if id in st.reqs then Some(st.reqs[id]) else None)
  }

  /** Messages and hang-ups of other requests never change a request. */
  lemma OthersUntouched(st: State, e: Event, id: Id)
    requires Enabled(st, e) && About(e) != Some(id)
    ensures ViewOf(Apply(st, e), id) == ViewOf(st, id)
  {
  }

  /** A data frame names its request in 32 bytes and carries what follows; a shorter one is ignored. */
  lemma FrameOnWire(st: State, id: Id, payload: Bytes)
    ensures |id| == 32 && payload != [] ==>
              About(Frame(id + payload)) == Some(id) && ItemOf(Frame(id + payload)) == Some(Part(payload))
    ensures |id| <= 32 ==> About(Frame(id)) == None && ItemOf(Frame(id)) == None && Apply(st, Frame(id)) == st
  {
    if |id| == 32 {
      assert (id + payload)[..32] == id && (id + payload)[32..] == payload;
    }
  }

  /** Once its handler has returned, a request stays forgotten, and its connection closed, with what it held then. */
  lemma {:induction false} EndedIsForgotten(trace: seq<State>, es: seq<Event>, i: nat, n: nat, id: Id)
    requires Run(trace, es) && i < n <= |es| && es[i] == Ends(id)
    ensures id in trace[i].conns && id in trace[n].conns && id !in trace[n].reqs
    ensures trace[n].conns[id] == Conn(trace[i].conns[id].out, false)
    decreases n
  {
    if i + 1 < n {
      EndedIsForgotten(trace, es, i, n - 1, id);
      assert trace[n] == Apply(trace[n - 1], es[n - 1]);
    }
  }

  // ---------------------------------------------------------------- frames that fill a response

  /** Some frame came, and the payloads reach the length. */
  predicate Complete(length: int, frames: seq<Bytes>) { frames != [] && |Concat(frames)| >= length }

  /** How many frames it takes: up to and including the first whose running total reaches the length, or all. */
  function Need(length: int, frames: seq<Bytes>): (n: nat)
    ensures n <= |frames|
  {
    if frames == [] then 0
    else if Complete(length, frames[..|frames| - 1]) then Need(length, frames[..|frames| - 1])
    else |frames|
  }

  lemma {:induction false} CompleteStays(length: int, frames: seq<Bytes>, n: nat)
    requires n <= |frames| && Complete(length, frames[..n])
    ensures Complete(length, frames)
    decreases |frames| - n
  {
    if n < |frames| {
      assert frames[..n + 1][..n] == frames[..n];
      CompleteStays(length, frames, n + 1);
    } else {
      assert frames[..n] == frames;
    }
  }

  lemma {:induction false} NeedIsFirst(length: int, frames: seq<Bytes>, k: nat)
    requires k <= |frames|
    ensures Complete(length, frames[..k]) ==> Need(length, frames) <= k
    ensures Complete(length, frames) ==> Complete(length, frames[..Need(length, frames)])
    ensures !Complete(length, frames) ==> Need(length, frames) == |frames|
  {
    if frames != [] {
      var init := frames[..|frames| - 1];
      if k < |frames| {
        assert frames[..k] == init[..k];
        NeedIsFirst(length, init, k);
      } else {
        NeedIsFirst(length, init, 0);
      }
      if Complete(length, init) {
        assert init[..Need(length, init)] == frames[..Need(length, init)];
        assert frames[..|init|] == init;
        CompleteStays(length, frames, |init|);
      } else {
        assert frames[..|frames|] == frames;
      }
    }
  }

  // ---------------------------------------------------------------- what a request is told

  /** What a message tells a request: a header with its announced length, or a part of the body. */
  datatype Item = Head(header: Bytes, length: int) | Part(payload: Bytes)

  function ItemOf(e: Event): Option<Item> {
    match e
    case Header(_, header, Some(length)) => Some(Head(header, length))
    case Frame(data) => if |data| > ID_LENGTH then Some(Part(data[ID_LENGTH..])) else None
    case _ => None
  }

  function Received(items: seq<Item>): nat {
    if items == [] then 0
    else
      var last := items[|items| - 1];
      Received(items[..|items| - 1]) + if last.Part? then |last.payload| else 0
  }

  /** The length that the latest header announced. */
  function Announced(items: seq<Item>): int {
    if items == [] then 0
    else
      var last := items[|items| - 1];
      if last.Head? then last.length else Announced(items[..|items| - 1])
  }

  function Text(items: seq<Item>): Bytes {
    if items == [] then []
    else
      var last := items[|items| - 1];
      Text(items[..|items| - 1]) + if last.Head? then last.header else last.payload
  }

  /** The last item completes the response: a part with which the announced length is reached, or a header that
      announces nothing. */
  predicate Closes(items: seq<Item>) {
    items != [] && match items[|items| - 1]
                   case Head(_, length) => length == 0
                   case Part(_) => Received(items) >= Announced(items)
  }

  predicate Finished(items: seq<Item>) {
    items != [] && (Finished(items[..|items| - 1]) || Closes(items))
  }

  /** How many items are delivered: up to and including the first that completes the response, or all. */
  function Until(items: seq<Item>): (n: nat)
    ensures n <= |items|
  {
    if items == [] then 0
    else if Finished(items[..|items| - 1]) then Until(items[..|items| - 1])
    else |items|
  }

  function Delivered(items: seq<Item>): seq<Item> { items[..Until(items)] }

  /** The delivered items end with the first one that completes the response. */
  lemma {:induction false} UntilIsFirst(items: seq<Item>, k: nat)
    requires k <= |items|
    ensures Closes(items[..k]) ==> Finished(items) && Until(items) <= k
    ensures Finished(items) ==> Closes(Delivered(items))
    ensures !Finished(items) ==> Delivered(items) == items
  {
    if items != [] {
      var init := items[..|items| - 1];
      if k < |items| {
        assert items[..k] == init[..k];
        UntilIsFirst(init, k);
      } else {
        assert items[..k] == items;
        UntilIsFirst(init, 0);
      }
      assert Finished(init) ==> Delivered(items) == Delivered(init);
      assert items[..|items|] == items;
    }
  }

  lemma DeliveredSnoc(items: seq<Item>, item: Item)
    ensures Finished(items + [item]) <==> Finished(items) || Closes(items + [item])
    ensures Delivered(items + [item]) == if Finished(items) then Delivered(items) else items + [item]
    ensures Text(items + [item]) == Text(items) + if item.Head? then item.header else item.payload
    ensures Received(items + [item]) == Received(items) + if item.Part? then |item.payload| else 0
    ensures Announced(items + [item]) == if item.Head? then item.length else Announced(items)
  {
    var more := items + [item];
    assert more[..|items|] == items && more[..|more|] == more;
    if Finished(items) {
      assert more[..Until(items)] == items[..Until(items)];
    }
  }

  // ---------------------------------------------------------------- the story of one request

  /** What has happened to one request: nothing; or it was opened, and told these items. `cut` means that an error
      message, a hang-up or the handler's end came before they were complete; what it is told later does not count. */
  datatype Story = Untold | Told(items: seq<Item>, cut: bool)

  predicate Cuts(e: Event) { e.Fails? || e.Hangs? || e.Ends? }

  /** The story goes on with an event about the request. */
  function Continue(story: Story, e: Event): Story {
    match story
    case Untold => if e.Opens? then Told([], false) else Untold
    case Told(items, cut) =>
      if cut then story
      else if ItemOf(e).Some? then Told(items + [ItemOf(e).value], false)
      else if Cuts(e) then Told(items, !Finished(items))
      else story
  }

  function StoryFrom(story: Story, es: seq<Event>, id: Id): Story {
    if es == [] then story
    else
      var before := StoryFrom(story, es[..|es| - 1], id);
      if About(es[|es| - 1]) == Some(id) then Continue(before, es[|es| - 1]) else before
  }

  /** The connection holds exactly the delivered items, and is open exactly until they are complete. Until then the
      counters are those of the items; once a part has completed them, the request is forgotten. */
  predicate Shows(items: seq<Item>, v: View) {
    var delivered := Delivered(items);
    && v.conn == Some(Conn(Text(delivered), !Finished(items)))
    && (!Finished(items) ==> v.req == Some(Req(Received(items), Announced(items))))
    && (Finished(items) && delivered != [] && delivered[|delivered| - 1].Part? ==> v.req.None?)
  }

  /** What the story says about the connection and the counters. */
  predicate Tells(story: Story, v: View) {
    match story
    case Untold => v == View(None, None)
    case Told(items, cut) =>
      if cut then !Finished(items) && v.conn == Some(Conn(Text(items), false)) else Shows(items, v)
  }

  /** What an event about the request does to it. */
  function ViewAfter(v: View, e: Event): View {
    match e
    case Opens(_) => View(Some(Conn([], true)), Some(Req(0, 0)))
    case Header(_, header, length) =>
      if length.None? || v.req.None? || v.conn.None? then v
      else
        var c := Written(v.conn.value, header);
        View(Some(if length.value == 0 then Close(c) else c), Some(v.req.value.(expected := length.value)))
    case Frame(data) =>
      if |data| <= ID_LENGTH || v.req.None? || v.conn.None? then v
      else
        var payload := data[ID_LENGTH..];
        var r := v.req.value.(received := v.req.value.received + |payload|);
        var c := Written(v.conn.value, payload);
        if r.received >= r.expected then View(Some(Close(c)), None) else View(Some(c), Some(r))
    case Fails(_) => if v.req.None? || v.conn.None? then v else v.(conn := Some(Close(v.conn.value)))
    case Hangs(_) => if v.conn.None? then v else v.(conn := Some(Close(v.conn.value)))
    case Ends(_) => if v.conn.None? then v else View(Some(Close(v.conn.value)), None)
  }

  lemma ViewMoved(st: State, e: Event, id: Id)
    requires Enabled(st, e) && About(e) == Some(id)
    ensures ViewOf(Apply(st, e), id) == ViewAfter(ViewOf(st, id), e)
  {
  }

  lemma ClosedStaysClosed(v: View, e: Event)
    requires v.conn.Some? && !v.conn.value.open && !e.Opens?
    ensures ViewAfter(v, e).conn == v.conn && (v.req.None? ==> ViewAfter(v, e).req.None?)
  {
  }

  /** The new item is delivered, and may complete the response. */
  lemma ItemDelivered(items: seq<Item>, item: Item)
    requires !Finished(items)
    ensures var more := items + [item];
            && Delivered(items) == items && Delivered(more) == more && more[|more| - 1] == item
            && Text(more) == Text(items) + (if item.Head? then item.header else item.payload)
            && (Finished(more) <==>
                  if item.Head? then item.length == 0 else Received(items) + |item.payload| >= Announced(items))
            && Received(more) == Received(items) + (if item.Part? then |item.payload| else 0)
            && Announced(more) == if item.Head? then item.length else Announced(items)
  {
    DeliveredSnoc(items, item);
    UntilIsFirst(items, 0);
    LastCloses(items, item);
  }

  lemma ItemTells(items: seq<Item>, v: View, e: Event)
    requires Tells(Told(items, false), v) && !Finished(items) && ItemOf(e).Some?
    ensures Tells(Told(items + [ItemOf(e).value], false), ViewAfter(v, e))
  {
    ItemDelivered(items, ItemOf(e).value);
  }

  lemma LastCloses(items: seq<Item>, item: Item)
    ensures Closes(items + [item]) <==>
            if item.Head? then item.length == 0 else Received(items) + |item.payload| >= Announced(items)
  {
    DeliveredSnoc(items, item);
  }

  lemma CutTells(items: seq<Item>, v: View, e: Event)
    requires Tells(Told(items, false), v) && !Finished(items) && ItemOf(e).None? && !e.Opens?
    ensures Tells(Told(items, Cuts(e)), ViewAfter(v, e))
  {
    UntilIsFirst(items, 0);
  }

  lemma OverTells(story: Story, v: View, e: Event)
    requires story.Told? && Tells(story, v) && (story.cut || Finished(story.items)) && !e.Opens?
    ensures Tells(Continue(story, e), ViewAfter(v, e))
  {
    ClosedStaysClosed(v, e);
    if ItemOf(e).Some? {
      DeliveredSnoc(story.items, ItemOf(e).value);
    }
  }

  lemma StoryGoesOn(story: Story, v: View, e: Event)
    requires Tells(story, v) && (e.Opens? ==> story.Untold?) && (e.Hangs? || e.Ends? ==> v.conn.Some?)
    ensures Tells(Continue(story, e), ViewAfter(v, e))
  {
    match story
    case Untold =>
    case Told(items, cut) =>
      if cut || Finished(items) {
        OverTells(story, v, e);
      } else if ItemOf(e).Some? {
        ItemTells(items, v, e);
      } else {
        CutTells(items, v, e);
      }
  }

  /** In every interleaving, each request is as its own story tells. */
  lemma {:induction false} RunTells(trace: seq<State>, es: seq<Event>, n: nat, id: Id)
    requires Run(trace, es) && n <= |es|
    ensures Tells(StoryFrom(Untold, es[..n], id), ViewOf(trace[n], id))
  {
    if n > 0 {
      RunTells(trace, es, n - 1, id);
      assert es[..n][..n - 1] == es[..n - 1];
      var st, e := trace[n - 1], es[n - 1];
      if About(e) == Some(id) {
        ViewMoved(st, e, id);
        StoryGoesOn(StoryFrom(Untold, es[..n - 1], id), ViewOf(st, id), e);
      } else {
        OthersUntouched(st, e, id);
      }
    }
  }

  // ---------------------------------------------------------------- responses

  /** What the events tell the request, in order. */
  function Items(es: seq<Event>, id: Id): seq<Item> {
    if es == [] then []
    else
      var e := es[|es| - 1];
      Items(es[..|es| - 1], id) + if About(e) == Some(id) && ItemOf(e).Some? then [ItemOf(e).value] else []
  }

  /** No error message, hang-up or handler's end concerns the request. */
  predicate CutFree(es: seq<Event>, id: Id) { forall e <- es :: About(e) == Some(id) ==> !Cuts(e) }

  lemma {:induction false} StoryJoins(story: Story, a: seq<Event>, b: seq<Event>, id: Id)
    ensures StoryFrom(story, a + b, id) == StoryFrom(StoryFrom(story, a, id), b, id)
  {
    if b == [] {
      assert a + b == a;
    } else {
      assert (a + b)[..|a + b| - 1] == a + b[..|b| - 1];
      StoryJoins(story, a, b[..|b| - 1], id);
    }
  }

  lemma {:induction false} CutFreeStory(items: seq<Item>, es: seq<Event>, id: Id)
    requires CutFree(es, id)
    ensures StoryFrom(Told(items, false), es, id) == Told(items + Items(es, id), false)
  {
    if es == [] {
      assert items + [] == items;
    } else {
      var e, init := es[|es| - 1], es[..|es| - 1];
      assert e in es && forall x <- init :: x in es;
      CutFreeStory(items, init, id);
      if About(e) == Some(id) && ItemOf(e).Some? {
        assert items + Items(init, id) + [ItemOf(e).value] == items + (Items(init, id) + [ItemOf(e).value]);
      }
    }
  }

  lemma PrefixOfMore(text: Bytes, items: seq<Item>, item: Item)
    requires text <= Text(Delivered(items))
    ensures text <= Text(Delivered(items + [item]))
  {
    DeliveredSnoc(items, item);
    UntilIsFirst(items, 0);
    if !Finished(items) {
      var was, now := Text(items), Text(items + [item]);
      assert now[..|was|] == was;
      assert now[..|text|] == was[..|text|] == text;
    }
  }

  /** What the story makes of the items: what has been written. */
  function Output(story: Story): Bytes {
    match story
    case Untold => []
    case Told(items, cut) => if cut then Text(items) else Text(Delivered(items))
  }

  /** Whatever happens, a prefix is written of what the items would have come to without a cut. */
  lemma {:induction false} StoryPrefix(es: seq<Event>, id: Id)
    ensures var story := StoryFrom(Told([], false), es, id);
            && story.Told? && Output(story) <= Text(Delivered(Items(es, id)))
            && (!story.cut ==> story.items == Items(es, id))
  {
    if es != [] {
      var e, init := es[|es| - 1], es[..|es| - 1];
      StoryPrefix(init, id);
      var story := StoryFrom(Told([], false), init, id);
      UntilIsFirst(story.items, 0);
      if About(e) == Some(id) && ItemOf(e).Some? {
        assert Items(es, id) == Items(init, id) + [ItemOf(e).value];
        if story.cut {
          PrefixOfMore(Output(story), Items(init, id), ItemOf(e).value);
        } else {
          assert StoryFrom(Told([], false), es, id) == Told(Items(es, id), false);
        }
      } else {
        assert Items(es, id) == Items(init, id) + [] == Items(init, id);
      }
    }
  }

  /** A response that is complete stays as it is, whatever comes. */
  lemma {:induction false} FinishedStory(items: seq<Item>, es: seq<Event>, id: Id)
    requires Finished(items)
    ensures var story := StoryFrom(Told(items, false), es, id);
            story.Told? && !story.cut && Finished(story.items) && Delivered(story.items) == Delivered(items)
  {
    if es != [] {
      FinishedStory(items, es[..|es| - 1], id);
      var story, e := StoryFrom(Told(items, false), es[..|es| - 1], id), es[|es| - 1];
      if ItemOf(e).Some? {
        DeliveredSnoc(story.items, ItemOf(e).value);
      }
    }
  }

  /** A request's story begins when the request is opened. */
  lemma StoryOfOpened(trace: seq<State>, es: seq<Event>, before: seq<Event>, rest: seq<Event>, id: Id)
    requires Run(trace, es) && es == before + [Opens(id)] + rest
    ensures Tells(StoryFrom(Told([], false), rest, id), ViewOf(trace[|es|], id))
  {
    RunTells(trace, es, |before|, id);
    assert es[..|before|] == before && es[|before|] == Opens(id);
    assert ViewOf(trace[|before|], id).conn.None?;
    assert StoryFrom(Untold, before, id) == Untold;
    var start := before + [Opens(id)];
    assert start[..|before|] == before;
    StoryJoins(Untold, start, rest, id);
    RunTells(trace, es, |es|, id);
    assert es[..|es|] == es;
  }

  // ---------------------------------------------------------------- theorems

  /** In every run the client of a request gets exactly the delivered ones of its own items, and its connection is open
      until they are complete. Messages of other requests may come anywhere. */
  lemma ResponseIs(trace: seq<State>, es: seq<Event>, before: seq<Event>, rest: seq<Event>, id: Id)
    requires Run(trace, es) && es == before + [Opens(id)] + rest && CutFree(rest, id)
    ensures Shows(Items(rest, id), ViewOf(trace[|es|], id))
  {
    StoryOfOpened(trace, es, before, rest, id);
    CutFreeStory([], rest, id);
    assert [] + Items(rest, id) == Items(rest, id);
  }

  /** Hang-ups, error messages and the handler's end, at any point, leave a prefix of that, whatever the items. */
  lemma HangupLeavesPrefix(trace: seq<State>, es: seq<Event>, before: seq<Event>, rest: seq<Event>, id: Id)
    requires Run(trace, es) && es == before + [Opens(id)] + rest
    ensures id in trace[|es|].conns && trace[|es|].conns[id].out <= Text(Delivered(Items(rest, id)))
  {
    StoryOfOpened(trace, es, before, rest, id);
    StoryPrefix(rest, id);
  }

  /** A complete response is final: whatever follows, headers and hang-ups included, leaves the connection as it is. */
  lemma ResponseIsFinal(trace: seq<State>, es: seq<Event>, before: seq<Event>, body: seq<Event>, tail: seq<Event>,
                        id: Id)
    requires Run(trace, es) && es == before + [Opens(id)] + (body + tail)
    requires CutFree(body, id) && Finished(Items(body, id))
    ensures Shows(Items(body, id), ViewOf(trace[|es|], id))
  {
    StoryOfOpened(trace, es, before, body + tail, id);
    CutFreeStory([], body, id);
    assert [] + Items(body, id) == Items(body, id);
    StoryJoins(Told([], false), body, tail, id);
    FinishedStory(Items(body, id), tail, id);
  }

  /** A frame that comes before any header is the whole response: the connection is closed after it, the request is
      forgotten, and whatever follows, the header included, is ignored. */
  lemma FrameFirst(trace: seq<State>, es: seq<Event>, before: seq<Event>, body: seq<Event>, payload: Bytes,
                   tail: seq<Event>, id: Id)
    requires Run(trace, es) && es == before + [Opens(id)] + (body + tail)
    requires CutFree(body, id) && Items(body, id) == [Part(payload)]
    ensures ViewOf(trace[|es|], id) == View(Some(Conn(payload, false)), None)
  {
    assert [] + [Part(payload)] == [Part(payload)] && [] + payload == payload;
    DeliveredSnoc([], Part(payload));
    ResponseIsFinal(trace, es, before, body, tail, id);
  }

  /** A header that announces no body, or none of known length, is the whole response. */
  lemma HeaderAlone(trace: seq<State>, es: seq<Event>, before: seq<Event>, body: seq<Event>, header: Bytes,
                    tail: seq<Event>, id: Id)
    requires Run(trace, es) && es == before + [Opens(id)] + (body + tail)
    requires CutFree(body, id) && Items(body, id) == [Head(header, 0)]
    ensures id in trace[|es|].conns && trace[|es|].conns[id] == Conn(header, false)
  {
    assert [] + [Head(header, 0)] == [Head(header, 0)] && [] + header == header;
    DeliveredSnoc([], Head(header, 0));
    ResponseIsFinal(trace, es, before, body, tail, id);
  }

  // ---------------------------------------------------------------- one header, then frames

  /** The payloads among the items. */
  function Parts(items: seq<Item>): seq<Bytes> {
    if items == [] then []
    else
      var last := items[|items| - 1];
      Parts(items[..|items| - 1]) + if last.Part? then [last.payload] else []
  }

  function AsParts(payloads: seq<Bytes>): seq<Item> {
    seq(|payloads|, i requires 0 <= i < |payloads| => Part(payloads[i]))
  }

  /** How many items it takes until the payloads among them reach the length: all, if they do not. */
  function Span(length: int, items: seq<Item>): (n: nat)
    ensures n <= |items|
  {
    if items == [] then 0
    else if Complete(length, Parts(items[..|items| - 1])) then Span(length, items[..|items| - 1])
    else |items|
  }

  /** No second header comes before the payloads reach the length. */
  predicate OneHeader(length: int, items: seq<Item>) { forall i :: 0 <= i < Span(length, items) ==> items[i].Part? }

  lemma {:induction false} PlainShape(items: seq<Item>)
    requires forall i <- items :: i.Part?
    ensures items == AsParts(Parts(items))
  {
    if items != [] {
      var init, last := items[..|items| - 1], items[|items| - 1];
      assert last in items && forall i <- init :: i in items;
      PlainShape(init);
    }
  }

  lemma {:induction false} PlainCounts(head: Item, items: seq<Item>)
    requires head.Head? && forall i <- items :: i.Part?
    ensures Received([head] + items) == |Concat(Parts(items))| && Announced([head] + items) == head.length
  {
    if items == [] {
      assert [head] + items == [] + [head];
      DeliveredSnoc([], head);
    } else {
      var init, last := items[..|items| - 1], items[|items| - 1];
      assert last in items && forall i <- init :: i in items;
      PlainCounts(head, init);
      HeadSnoc(head, items);
      ConcatSnoc(Parts(init), last.payload);
    }
  }

  lemma {:induction false} TextJoins(a: seq<Item>, b: seq<Item>)
    ensures Text(a + b) == Text(a) + Text(b)
  {
    if b == [] {
      assert a + b == a;
    } else {
      assert (a + b)[..|a + b| - 1] == a + b[..|b| - 1];
      TextJoins(a, b[..|b| - 1]);
    }
  }

  lemma {:induction false} TextOfParts(items: seq<Item>)
    requires forall i <- items :: i.Part?
    ensures Text(items) == Concat(Parts(items))
  {
    if items != [] {
      var init, last := items[..|items| - 1], items[|items| - 1];
      assert last in items && forall i <- init :: i in items;
      TextOfParts(init);
      ConcatSnoc(Parts(init), last.payload);
    }
  }

  lemma PlainText(head: Item, items: seq<Item>)
    requires head.Head? && forall i <- items :: i.Part?
    ensures Text([head] + items) == head.header + Concat(Parts(items))
  {
    TextJoins([head], items);
    TextOfParts(items);
    assert [] + [head] == [head];
    DeliveredSnoc([], head);
    assert [] + head.header == head.header;
  }

  /** The items after a header, taken one more at a time. */
  lemma HeadSnoc(head: Item, items: seq<Item>)
    requires head.Head? && items != []
    ensures var init, last := [head] + items[..|items| - 1], items[|items| - 1];
            var all := [head] + items;
            && all == init + [last]
            && (Finished(all) <==> Finished(init) || Closes(all))
            && Delivered(all) == (if Finished(init) then Delivered(init) else all)
            && Text(all) == Text(init) + (if last.Head? then last.header else last.payload)
            && Received(all) == Received(init) + (if last.Part? then |last.payload| else 0)
            && Announced(all) == (if last.Head? then last.length else Announced(init))
  {
    assert [head] + items == ([head] + items[..|items| - 1]) + [items[|items| - 1]];
    DeliveredSnoc([head] + items[..|items| - 1], items[|items| - 1]);
  }

  lemma {:induction false} PlainFinished(head: Item, items: seq<Item>)
    requires head.Head? && head.length != 0 && forall i <- items :: i.Part?
    ensures Finished([head] + items) <==> Complete(head.length, Parts(items))
  {
    if items == [] {
      assert [head] + items == [] + [head];
      DeliveredSnoc([], head);
    } else {
      var init, last := items[..|items| - 1], items[|items| - 1];
      assert last in items && forall i <- init :: i in items;
      PlainFinished(head, init);
      PlainCounts(head, items);
      HeadSnoc(head, items);
      if Complete(head.length, Parts(init)) {
        CompleteTail(head.length, items);
      }
    }
  }

  lemma CompleteTail(length: int, items: seq<Item>)
    requires items != [] && Complete(length, Parts(items[..|items| - 1]))
    ensures Complete(length, Parts(items))
  {
    var payloads := Parts(items[..|items| - 1]);
    assert Parts(items)[..|payloads|] == payloads;
    CompleteStays(length, Parts(items), |payloads|);
  }

  lemma SpanOfIncomplete(length: int, items: seq<Item>)
    requires !Complete(length, Parts(items))
    ensures Span(length, items) == |items|
  {
    if items != [] && Complete(length, Parts(items[..|items| - 1])) {
      CompleteTail(length, items);
    }
  }

  lemma NeedAll(length: int, payloads: seq<Bytes>)
    requires payloads == [] || !Complete(length, payloads[..|payloads| - 1])
    ensures payloads[..Need(length, payloads)] == payloads
  {
  }

  /** The length was not reached before the last item: all of them are delivered. */
  lemma AllNeeded(head: Item, items: seq<Item>)
    requires head.Head? && head.length != 0 && forall i <- items :: i.Part?
    requires items == [] || !Complete(head.length, Parts(items[..|items| - 1]))
    ensures Delivered([head] + items) == [head] + items
    ensures Parts(items) == [] || !Complete(head.length, Parts(items)[..|Parts(items)| - 1])
  {
    if items == [] {
      assert [head] + items == [] + [head];
      DeliveredSnoc([], head);
    } else {
      var init, last := items[..|items| - 1], items[|items| - 1];
      assert last in items && forall i <- init :: i in items;
      PlainFinished(head, init);
      HeadSnoc(head, items);
      assert Parts(items)[..|Parts(items)| - 1] == Parts(init);
    }
  }

  lemma NeedStays(length: int, items: seq<Item>)
    requires items != [] && Complete(length, Parts(items[..|items| - 1]))
    ensures var payloads, more := Parts(items[..|items| - 1]), Parts(items);
            Complete(length, more) && more[..Need(length, more)] == payloads[..Need(length, payloads)]
  {
    CompleteTail(length, items);
    var payloads, more := Parts(items[..|items| - 1]), Parts(items);
    assert more == payloads || more[..|more| - 1] == payloads;
  }

  lemma {:induction false} OneHeaderDelivers(head: Item, items: seq<Item>)
    requires head.Head? && head.length != 0 && OneHeader(head.length, items)
    ensures var payloads := Parts(items);
            && (Finished([head] + items) <==> Complete(head.length, payloads))
            && Delivered([head] + items) == [head] + AsParts(payloads[..Need(head.length, payloads)])
  {
    if items == [] || !Complete(head.length, Parts(items[..|items| - 1])) {
      assert forall i <- items :: i.Part?;
      PlainFinished(head, items);
      PlainShape(items);
      AllNeeded(head, items);
      NeedAll(head.length, Parts(items));
    } else {
      OneHeaderDelivers(head, items[..|items| - 1]);
      HeadSnoc(head, items);
      NeedStays(head.length, items);
    }
  }

  predicate HeadAfterFirst(items: seq<Item>) { exists i :: 0 < i < |items| && items[i].Head? }

  lemma NewHeader(length: int, items: seq<Item>)
    requires items != [] && OneHeader(length, items[..|items| - 1]) && !OneHeader(length, items)
    ensures !Complete(length, Parts(items[..|items| - 1]))
    ensures (forall i <- items[..|items| - 1] :: i.Part?) && items[|items| - 1].Head?
  {
    if !Complete(length, Parts(items[..|items| - 1])) {
      SpanOfIncomplete(length, items[..|items| - 1]);
    }
  }

  lemma NewHeaderDelivered(head: Item, items: seq<Item>)
    requires head.Head? && head.length != 0 && items != [] && items[|items| - 1].Head?
    requires !Finished([head] + items[..|items| - 1])
    ensures HeadAfterFirst(Delivered([head] + items))
  {
    HeadSnoc(head, items);
    assert ([head] + items)[|items|] == items[|items| - 1];
  }

  lemma {:induction false} SecondHeaderDelivered(head: Item, items: seq<Item>)
    requires head.Head? && head.length != 0 && !OneHeader(head.length, items)
    ensures HeadAfterFirst(Delivered([head] + items))
  {
    var init, last := items[..|items| - 1], items[|items| - 1];
    if !OneHeader(head.length, init) {
      SecondHeaderDelivered(head, init);
      HeadKept([head] + init, last);
      assert [head] + items == [head] + init + [last];
    } else {
      NewHeader(head.length, items);
      PlainFinished(head, init);
      NewHeaderDelivered(head, items);
    }
  }

  lemma HeadKept(items: seq<Item>, item: Item)
    requires HeadAfterFirst(Delivered(items))
    ensures HeadAfterFirst(Delivered(items + [item]))
  {
    DeliveredSnoc(items, item);
    UntilIsFirst(items, 0);
    var i :| 0 < i < |Delivered(items)| && Delivered(items)[i].Head?;
    assert Delivered(items + [item])[i] == Delivered(items)[i];
  }

  /** After a header with a non-zero length, what is delivered is that header and then the request's own payloads, up to
      and including the first with which their total reaches the length, exactly if no second header comes before. */
  lemma OneHeaderExactly(header: Bytes, length: int, items: seq<Item>)
    requires length != 0
    ensures Delivered([Head(header, length)] + items) ==
            [Head(header, length)] + AsParts(Parts(items)[..Need(length, Parts(items))])
            <==> OneHeader(length, items)
  {
    if OneHeader(length, items) {
      OneHeaderDelivers(Head(header, length), items);
    } else {
      SecondHeaderDelivered(Head(header, length), items);
    }
  }

  lemma {:induction false} PlainParts(payloads: seq<Bytes>)
    ensures Parts(AsParts(payloads)) == payloads
  {
    if payloads != [] {
      var n := |payloads| - 1;
      assert AsParts(payloads)[..n] == AsParts(payloads[..n]);
      PlainParts(payloads[..n]);
    }
  }

  lemma OneHeaderText(head: Item, items: seq<Item>)
    requires head.Head? && head.length != 0 && OneHeader(head.length, items)
    ensures var payloads := Parts(items);
            Text(Delivered([head] + items)) == head.header + Concat(payloads[..Need(head.length, payloads)])
  {
    var delivered := Parts(items)[..Need(head.length, Parts(items))];
    OneHeaderDelivers(head, items);
    PlainParts(delivered);
    PlainText(head, AsParts(delivered));
  }

  /** A request whose header comes first with a non-zero length gets its header and its own payloads, in order, up to
      and including the first frame whose running total reaches the length. Then its connection is closed and it is
      forgotten; until then it stays open. Messages of other requests may come anywhere, and further headers of its own
      once the response is complete. */
  lemma ResponseDelivered(trace: seq<State>, es: seq<Event>, before: seq<Event>, rest: seq<Event>,
                          header: Bytes, length: int, items: seq<Item>, id: Id)
    requires Run(trace, es) && es == before + [Opens(id)] + rest && CutFree(rest, id)
    requires length != 0 && Items(rest, id) == [Head(header, length)] + items && OneHeader(length, items)
    ensures var payloads := Parts(items);
            ViewOf(trace[|es|], id) ==
            if Complete(length, payloads)
            then View(Some(Conn(header + Concat(payloads[..Need(length, payloads)]), false)), None)
            else View(Some(Conn(header + Concat(payloads), true)), Some(Req(|Concat(payloads)|, length)))
  {
    var head, payloads := Head(header, length), Parts(items);
    ResponseIs(trace, es, before, rest, id);
    OneHeaderDelivers(head, items);
    OneHeaderText(head, items);
    UntilIsFirst([head] + items, 0);
    NeedIsFirst(length, payloads, 0);
    if !Complete(length, payloads) {
      SpanOfIncomplete(length, items);
      PlainCounts(head, items);
      assert payloads[..|payloads|] == payloads;
    }
  }

  /** Hang-ups, error messages and the handler's end leave a prefix of it. */
  lemma HangupLeavesPart(trace: seq<State>, es: seq<Event>, before: seq<Event>, rest: seq<Event>,
                         header: Bytes, length: int, items: seq<Item>, id: Id)
    requires Run(trace, es) && es == before + [Opens(id)] + rest
    requires length != 0 && Items(rest, id) == [Head(header, length)] + items && OneHeader(length, items)
    ensures id in trace[|es|].conns
    ensures trace[|es|].conns[id].out <= header + Concat(Parts(items)[..Need(length, Parts(items))])
  {
    HangupLeavesPrefix(trace, es, before, rest, id);
    OneHeaderText(Head(header, length), items);
  }

  /** A run in which a second header is written into the response, and decides its length. */
  lemma SecondHeaderMixesIn(id: Id, first: Bytes, second: Bytes, length: int)
    returns (trace: seq<State>, es: seq<Event>)
    requires |id| == ID_LENGTH && length != 0
    ensures Run(trace, es)
    ensures es == [Opens(id), Header(id, first, Some(length)), Header(id, second, Some(0))]
    ensures trace[3].conns == map[id := Conn(first + second, false)]
  {
    es := [Opens(id), Header(id, first, Some(length)), Header(id, second, Some(0))];
    var one := Apply(INITIAL, es[0]);
    var two := Apply(one, es[1]);
    trace := [INITIAL, one, two, Apply(two, es[2])];
    assert [] + first == first;
  }
}
