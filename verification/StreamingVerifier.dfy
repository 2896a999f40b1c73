/** The streaming chain verifier: one pass over the ordered left join of events and headers. */
module StreamingVerifier {
  import opened Framing
  import opened EventId
  import opened AuditChain

  /** One row of the join: the event columns, and header columns that may be NULL. */
  datatype JoinRow = JoinRow(row: EventRow, name: Option<string>, value: Option<string>)

  /** A header counts only when both of its columns are present. */
  function HeaderOf(j: JoinRow): seq<Header> {
    if j.name.Some? && j.value.Some? then [(j.name.value, j.value.value)] else []
  }

  /** Consecutive join rows with one event id, folded into events. */
  function Group(rows: seq<JoinRow>): seq<Event> {
    if rows == [] then []
    else
      var before, j := Group(rows[..|rows| - 1]), rows[|rows| - 1];
      if before != [] && before[|before| - 1].row.id == j.row.id
      then Extend(before, HeaderOf(j))
      else before + [Event(j.row, HeaderOf(j))]
  }

  function Extend(es: seq<Event>, more: seq<Header>): (r: seq<Event>)
    requires es != []
    ensures |r| == |es|
  {
    var last := es[|es| - 1];
    es[..|es| - 1] + [Event(last.row, last.headers + more)]
  }

  function HmacLabel(raw: string): string {
    if raw == "" then "hmac-" else if "hmac-" <= raw then raw else "hmac-" + raw
  }

  /** The label of a digest ends with the digest, so labels are equal exactly when digests are. A label is its own
      label, and no digest at all has the bare one. */
  lemma LabelKeepsDigest(a: string, b: string, length: nat)
    requires 0 < length && IsLowerHex(a, length) && IsLowerHex(b, length)
    ensures HmacLabel(a) == "hmac-" + a && HmacLabel(a)[5..] == a
    ensures HmacLabel(a) == HmacLabel(b) <==> a == b
    ensures HmacLabel("") == "hmac-" && HmacLabel("hmac-" + a) == HmacLabel(a)
  {
    assert a[0] != "hmac-"[0] && b[0] != "hmac-"[0];
    assert ("hmac-" + a)[5..] == a && ("hmac-" + b)[5..] == b;
  }

  /** A stamp read at a one-based ordinal: the row's HMAC, or how many rows there were. */
  datatype Stamp = Found(ordinal: nat, hmac: string) | Beyond(requested: nat, observed: nat)

  datatype Report =
    | Valid(events: nat, genesis: string, latest: string, stamp: Option<Stamp>)
    | Broken(b: Break)
    | Refused

  /** The stamp a finished walk owes its caller. */
  function StampAt(es: seq<Event>, requested: Option<nat>): Option<Stamp> {
    match requested
    case None => None
    case Some(k) =>
      if 1 <= k <= |es| then Some(Found(k, HmacLabel(es[k - 1].row.hmac))) else Some(Beyond(k, |es|))
  }

  /** `b` names the smallest failing index and why that row fails. */
  predicate FirstBreak(d: Dialect, ctx: Ctx, es: seq<Event>, b: Break) {
    && b.at < |es| && (forall i :: 0 <= i < b.at ==> OkAt(d, ctx, es, i))
    && VerifyEvent(d, ctx, es[b.at], PrevOf(es, b.at)) == Some(b.reason)
  }

  /** The report over a chain, said without a walk: the first bad row, or the two ends. */
  predicate Describes(d: Dialect, ctx: Ctx, es: seq<Event>, allowEmpty: bool, capture: Option<nat>, r: Report) {
    match r
    case Refused => false
    case Valid(n, genesis, latest, stamp) =>
      && Accepted(d, ctx, es) && (es != [] || allowEmpty)
      && n == |es| && genesis == HmacLabel(if es == [] then "" else es[0].row.hmac)
      && latest == HmacLabel(PrevOf(es, |es|)) && stamp == StampAt(es, capture)
    case Broken(b) =>
      if es == [] then !allowEmpty && b == Break(0, NoEvents)
      else FirstBreak(d, ctx, es, b)
  }

  /** The walk's variables: the open group, the checked prefix and the captured stamp. */
  datatype Walk = Walk(
    current: Option<EventRow>, headers: seq<Header>, prev: string, genesis: string, events: nat, stamp: Option<Stamp>)

  const START := Walk(None, [], "", "", 0, None)

  /** Where the walk stands after some join rows: all groups but the last are checked. */
  predicate Walked(d: Dialect, ctx: Ctx, capture: Option<nat>, es: seq<Event>, w: Walk) {
    && (w.current.None? ==> es == [] && w == START)
    && (w.current.Some? ==> |es| == w.events + 1 && es[w.events] == Event(w.current.value, w.headers))
    && w.events <= |es|
    && (forall i :: 0 <= i < w.events ==> OkAt(d, ctx, es, i))
    && w.prev == PrevOf(es, w.events)
    && w.genesis == (if w.events == 0 then "" else es[0].row.hmac)
    && w.stamp == (if capture.Some? && 1 <= capture.value <= w.events
                   then Some(Found(capture.value, HmacLabel(es[capture.value - 1].row.hmac))) else None)
  }

  /** Count the open group as checked. */
  function Close(w: Walk, capture: Option<nat>): Walk
    requires w.current.Some?
  {
    var hmac := w.current.value.hmac;
    Walk(None, [], hmac, if w.events == 0 then hmac else w.genesis, w.events + 1,
         if capture == Some(w.events + 1) then Some(Found(w.events + 1, HmacLabel(hmac))) else w.stamp)
  }

  /** A new event id opens a group once the one before it has passed. */
  lemma WalkedOpens(d: Dialect, ctx: Ctx, capture: Option<nat>, es: seq<Event>, w: Walk, e: Event)
    requires Walked(d, ctx, capture, es, w)
    requires w.current.Some? ==> VerifyEvent(d, ctx, Event(w.current.value, w.headers), w.prev).None?
    ensures var closed := if w.current.Some? then Close(w, capture) else w;
            Walked(d, ctx, capture, es + [e], closed.(current := Some(e.row), headers := e.headers))
  {
    hide VerifyEvent, HmacLabel;
    var grown := es + [e];
    forall i | 0 <= i < |es| ensures OkAt(d, ctx, grown, i) {
      assert grown[i] == es[i] && PrevOf(grown, i) == PrevOf(es, i);
      if i < w.events { assert OkAt(d, ctx, es, i); }
    }
  }

  /** Another header row grows only the last group and disturbs none already checked. */
  lemma WalkedExtends(d: Dialect, ctx: Ctx, capture: Option<nat>, es: seq<Event>, w: Walk, more: seq<Header>)
    requires Walked(d, ctx, capture, es, w) && w.current.Some?
    ensures Walked(d, ctx, capture, Extend(es, more), w.(headers := w.headers + more))
  {
    hide VerifyEvent, HmacLabel;
    var grown := Extend(es, more);
    assert PrevOf(grown, w.events) == PrevOf(es, w.events);
    forall i | 0 <= i < w.events ensures OkAt(d, ctx, grown, i) {
      assert grown[i] == es[i] && PrevOf(grown, i) == PrevOf(es, i);
      assert OkAt(d, ctx, es, i);
    }
  }

  /** The open group is the only row left to check. */
  lemma WalkedEnds(d: Dialect, ctx: Ctx, capture: Option<nat>, es: seq<Event>, w: Walk)
    requires Walked(d, ctx, capture, es, w) && w.current.Some?
    ensures var verdict := VerifyEvent(d, ctx, Event(w.current.value, w.headers), w.prev);
            if verdict.Some? then FirstBreak(d, ctx, es, Break(w.events, verdict.value))
            else Accepted(d, ctx, es) && Ended(es, capture, Close(w, capture))
  {
    hide VerifyEvent, HmacLabel;
    if VerifyEvent(d, ctx, Event(w.current.value, w.headers), w.prev).None? {
      forall i | 0 <= i < |es| ensures OkAt(d, ctx, es, i) {
      }
    }
  }

  /** What a finished walk knows about the ends of a non-empty chain. */
  predicate Ended(es: seq<Event>, capture: Option<nat>, w: Walk) {
    es != [] && w.events == |es| && w.prev == PrevOf(es, |es|) && w.genesis == es[0].row.hmac
    && (match capture
        case None => w.stamp.None?
        case Some(k) => if 1 <= k <= |es| then w.stamp == StampAt(es, capture) else w.stamp.None?)
  }

  /** Later join rows can only touch the last group, so closed groups are final. */
  lemma {:induction false} ClosedGroupsFinal(rows: seq<JoinRow>, n: nat)
    requires n <= |rows|
    ensures |Group(rows[..n])| <= |Group(rows)|
    ensures forall k :: 0 <= k < |Group(rows[..n])| - 1 ==> Group(rows)[k] == Group(rows[..n])[k]
  {
    if n == |rows| {
      assert rows[..n] == rows;
    } else {
      var init := rows[..|rows| - 1];
      ClosedGroupsFinal(init, n);
      assert init[..n] == rows[..n];
    }
  }

  /** A break found among closed groups is the first break of the whole chain. */
  lemma BreakIsFinal(d: Dialect, ctx: Ctx, part: seq<Event>, es: seq<Event>, b: Break)
    requires FirstBreak(d, ctx, part, b)
    requires |part| <= |es| && forall k :: 0 <= k < |part| ==> es[k] == part[k]
    ensures FirstBreak(d, ctx, es, b)
  {
    hide VerifyEvent;
    forall i | 0 <= i < b.at ensures OkAt(d, ctx, es, i) {
      assert OkAt(d, ctx, part, i) && PrevOf(es, i) == PrevOf(part, i);
    }
  }

  datatype Progress = Stopped(b: Break) | Going(w: Walk)

  lemma GroupGrows(rows: seq<JoinRow>, i: nat)
    requires i < |rows|
    ensures var before, j := Group(rows[..i]), rows[i];
      Group(rows[..i + 1]) == (if before != [] && before[|before| - 1].row.id == j.row.id
                               then Extend(before, HeaderOf(j)) else before + [Event(j.row, HeaderOf(j))])
  {
    assert rows[..i + 1][..i] == rows[..i];
  }

  predicate SameGroup(w: Walk, row: EventRow) { w.current.Some? && w.current.value.id == row.id }

  lemma StepInside(d: Dialect, ctx: Ctx, capture: Option<nat>, rows: seq<JoinRow>, i: nat, w: Walk)
    requires i < |rows| && Walked(d, ctx, capture, Group(rows[..i]), w) && SameGroup(w, rows[i].row)
    ensures Walked(d, ctx, capture, Group(rows[..i + 1]), w.(headers := w.headers + HeaderOf(rows[i])))
  {
    GroupGrows(rows, i);
    WalkedExtends(d, ctx, capture, Group(rows[..i]), w, HeaderOf(rows[i]));
    hide OkAt, HmacLabel, Group, Extend, PrevOf;
  }

  lemma StepOpens(d: Dialect, ctx: Ctx, capture: Option<nat>, rows: seq<JoinRow>, i: nat, w: Walk)
    requires i < |rows| && Walked(d, ctx, capture, Group(rows[..i]), w) && !SameGroup(w, rows[i].row)
    requires w.current.Some? ==> VerifyEvent(d, ctx, Event(w.current.value, w.headers), w.prev).None?
    ensures var closed := if w.current.Some? then Close(w, capture) else w;
            Walked(d, ctx, capture, Group(rows[..i + 1]), closed.(current := Some(rows[i].row), headers := HeaderOf(rows[i])))
  {
    GroupGrows(rows, i);
    WalkedOpens(d, ctx, capture, Group(rows[..i]), w, Event(rows[i].row, HeaderOf(rows[i])));
    hide OkAt, HmacLabel, Group, Extend, PrevOf, VerifyEvent, Close;
  }

  /** Once another event id shows up, the groups so far are groups of the whole join. */
  lemma GroupsSoFarFinal(rows: seq<JoinRow>, i: nat)
    requires i < |rows|
    requires var before := Group(rows[..i]); before == [] || before[|before| - 1].row.id != rows[i].row.id
    ensures |Group(rows[..i])| <= |Group(rows)|
    ensures forall k :: 0 <= k < |Group(rows[..i])| ==> Group(rows)[k] == Group(rows[..i])[k]
  {
    GroupGrows(rows, i);
    ClosedGroupsFinal(rows, i + 1);
    hide Group;
  }

  lemma StepBreaks(d: Dialect, ctx: Ctx, capture: Option<nat>, rows: seq<JoinRow>, i: nat, w: Walk, reason: Reason)
    requires i < |rows| && Walked(d, ctx, capture, Group(rows[..i]), w) && !SameGroup(w, rows[i].row)
    requires w.current.Some? && VerifyEvent(d, ctx, Event(w.current.value, w.headers), w.prev) == Some(reason)
    ensures FirstBreak(d, ctx, Group(rows), Break(w.events, reason))
  {
    hide Group, VerifyEvent, OkAt, HmacLabel, PrevOf;
    GroupsSoFarFinal(rows, i);
    WalkedEnds(d, ctx, capture, Group(rows[..i]), w);
    hide FirstBreak;
    BreakIsFinal(d, ctx, Group(rows[..i]), Group(rows), Break(w.events, reason));
  }

  lemma NothingWalked(d: Dialect, ctx: Ctx, capture: Option<nat>, rows: seq<JoinRow>)
    ensures Walked(d, ctx, capture, Group(rows[..0]), START) && rows[..|rows|] == rows
  {
  }

  /** The row-grouping loop: check a group when the next event id shows up. */
  method WalkRows(d: Dialect, ctx: Ctx, rows: seq<JoinRow>, capture: Option<nat>) returns (p: Progress)
    ensures p.Stopped? ==> FirstBreak(d, ctx, Group(rows), p.b)
    ensures p.Going? ==> Walked(d, ctx, capture, Group(rows), p.w)
  {
    hide VerifyEvent, HmacLabel, OkAt, Walked, Group, FirstBreak, Close, HeaderOf;
    NothingWalked(d, ctx, capture, rows);
    var w := START;
    for i := 0 to |rows|
      invariant Walked(d, ctx, capture, Group(rows[..i]), w)
    {
      var row, header := rows[i].row, HeaderOf(rows[i]);
      if w.current.Some? && w.current.value.id == row.id {
        StepInside(d, ctx, capture, rows, i, w);
        w := w.(headers := w.headers + header);
      } else {
        if w.current.Some? {
          var verdict := VerifyEvent(d, ctx, Event(w.current.value, w.headers), w.prev);
          if verdict.Some? {
            StepBreaks(d, ctx, capture, rows, i, w, verdict.value);
            return Stopped(Break(w.events, verdict.value));
          }
        }
        StepOpens(d, ctx, capture, rows, i, w);
        if w.current.Some? { w := Close(w, capture); }
        w := w.(current := Some(row), headers := header);
      }
    }
    return Going(w);
  }

  /** `verify_connection`, with the stamp capture of the engine's walk. */
  method VerifyConnection(
    d: Dialect, crypto: Crypto, key: string, world: string, generation: string, formats: seq<(int, int)>,
    rows: seq<JoinRow>, allowEmpty: bool, capture: Option<nat>) returns (r: Report)
    ensures r == Refused <==> formats != [(1, 2)] || !IsLowerHex(generation, 32)
    ensures r != Refused ==> Describes(d, Ctx(crypto, key, world, generation), Group(rows), allowEmpty, capture, r)
  {
    if formats != [(1, 2)] || !IsLowerHex(generation, 32) { return Refused; }
    hide VerifyEvent, IsLowerHex, HmacLabel, OkAt, Group;
    var ctx := Ctx(crypto, key, world, generation);
    var p := WalkRows(d, ctx, rows, capture);
    if p.Stopped? { return Broken(p.b); }
    var w := p.w;
    if w.current.None? {
      if !allowEmpty { return Broken(Break(0, NoEvents)); }
      return Valid(0, HmacLabel(""), HmacLabel(""), if capture.Some? then Some(Beyond(capture.value, 0)) else None);
    }
    WalkedEnds(d, ctx, capture, Group(rows), w);
    var verdict := VerifyEvent(d, ctx, Event(w.current.value, w.headers), w.prev);
    if verdict.Some? { return Broken(Break(w.events, verdict.value)); }
    w := Close(w, capture);
    var stamp := if capture.Some? && w.stamp.None? then Some(Beyond(capture.value, w.events)) else w.stamp;
    return Valid(w.events, HmacLabel(w.genesis), HmacLabel(w.prev), stamp);
  }

  // ---- The join -----------------------------------------------------------------------------

  /** A stored event and its header rows, whose columns may be NULL independently. */
  datatype Stored = Stored(row: EventRow, headerRows: seq<(Option<string>, Option<string>)>)

  function JoinHeaders(row: EventRow, hs: seq<(Option<string>, Option<string>)>): (js: seq<JoinRow>)
    ensures |js| == |hs|
  {
    seq(|hs|, i requires 0 <= i < |hs| => JoinRow(row, hs[i].0, hs[i].1))
  }

  /** LEFT JOIN: an event without header rows still yields one row, with NULL columns. */
  function JoinOne(s: Stored): (js: seq<JoinRow>)
    ensures js != [] && forall i :: 0 <= i < |js| ==> js[i].row == s.row
  {
    if s.headerRows == [] then [JoinRow(s.row, None, None)] else JoinHeaders(s.row, s.headerRows)
  }

  function Join(ss: seq<Stored>): seq<JoinRow> {
    if ss == [] then [] else Join(ss[..|ss| - 1]) + JoinOne(ss[|ss| - 1])
  }

  function Present(hs: seq<(Option<string>, Option<string>)>): seq<Header> {
    if hs == [] then []
    else
      var h := hs[|hs| - 1];
      Present(hs[..|hs| - 1]) + (if h.0.Some? && h.1.Some? then [(h.0.value, h.1.value)] else [])
  }

  /** Each event with its own complete headers, no join in between. */
  function Chain(ss: seq<Stored>): (es: seq<Event>)
    ensures |es| == |ss|
  {
    seq(|ss|, i requires 0 <= i < |ss| => Event(ss[i].row, Present(ss[i].headerRows)))
  }

  predicate DistinctNeighbours(ss: seq<Stored>) {
    forall i :: 0 < i < |ss| ==> ss[i - 1].row.id != ss[i].row.id
  }

  function LastId(es: seq<Event>): Option<int> { if es == [] then None else Some(es[|es| - 1].row.id) }

  lemma GroupSnoc(rows: seq<JoinRow>, j: JoinRow)
    ensures Group(rows + [j]) == if LastId(Group(rows)) == Some(j.row.id) then Extend(Group(rows), HeaderOf(j))
                                 else Group(rows) + [Event(j.row, HeaderOf(j))]
  {
    assert (rows + [j])[..|rows|] == rows;
  }

  lemma {:induction false} GroupOneEvent(rows: seq<JoinRow>, row: EventRow, hs: seq<(Option<string>, Option<string>)>)
    requires hs != [] && LastId(Group(rows)) != Some(row.id)
    ensures Group(rows + JoinHeaders(row, hs)) == Group(rows) + [Event(row, Present(hs))]
  {
    hide Group;
    var init, last := hs[..|hs| - 1], JoinRow(row, hs[|hs| - 1].0, hs[|hs| - 1].1);
    var before := rows + JoinHeaders(row, init);
    assert rows + JoinHeaders(row, hs) == before + [last];
    GroupSnoc(before, last);
    if init == [] {
      assert before == rows && [] + HeaderOf(last) == HeaderOf(last);
    } else {
      GroupOneEvent(rows, row, init);
    }
  }

  /** Grouping undoes the join: header rows with a NULL column vanish, header-less events survive. */
  lemma {:induction false} GroupUndoesJoin(ss: seq<Stored>)
    requires DistinctNeighbours(ss)
    ensures Group(Join(ss)) == Chain(ss)
  {
    if ss != [] {
      var init, last := ss[..|ss| - 1], ss[|ss| - 1];
      GroupUndoesJoin(init);
      var e := Event(last.row, Present(last.headerRows));
      assert Chain(ss) == Chain(init) + [e];
      assert LastId(Chain(init)) != Some(last.row.id);
      hide Group, Present, Chain;
      if last.headerRows == [] {
        GroupSnoc(Join(init), JoinRow(last.row, None, None));
        assert e.headers == [] by { PresentNone(); }
      } else {
        GroupOneEvent(Join(init), last.row, last.headerRows);
      }
    }
  }

  lemma PresentNone()
    ensures Present([]) == []
  {
  }

  /** Reports are determined by the chain: the streaming pass cannot answer anything else. */
  lemma ReportUnique(d: Dialect, ctx: Ctx, es: seq<Event>, allowEmpty: bool, capture: Option<nat>, r: Report, q: Report)
    requires Describes(d, ctx, es, allowEmpty, capture, r) && Describes(d, ctx, es, allowEmpty, capture, q)
    ensures r == q
  {
    hide VerifyEvent, HmacLabel;
    if es != [] && r.Broken? {
      assert !OkAt(d, ctx, es, r.b.at);
    }
    if es != [] && q.Broken? {
      assert !OkAt(d, ctx, es, q.b.at);
    }
  }

  // ---- Tail check ---------------------------------------------------------------------------

  /** The O(1) gate: the last row against the stored HMAC of the row before it. */
  predicate TailOk(d: Dialect, ctx: Ctx, es: seq<Event>) { es != [] && OkAt(d, ctx, es, |es| - 1) }

  /** Fast path against full path: the whole walk passes exactly when the walk of all but the last row
      passes and the tail check does. */
  lemma FullWalkIsPrefixAndTail(d: Dialect, ctx: Ctx, es: seq<Event>)
    requires es != []
    ensures Accepted(d, ctx, es) <==> Accepted(d, ctx, es[..|es| - 1]) && TailOk(d, ctx, es)
  {
    var init, last := es[..|es| - 1], es[|es| - 1];
    AcceptedSnoc(d, ctx, init, last);
    assert es == init + [last] && PrevOf(init, |init|) == PrevOf(es, |es| - 1);
  }

  /** A stamp at ordinal k is the head that was read when the chain had k rows, however it grew. */
  lemma StampIsPastHead(es: seq<Event>, k: nat)
    requires 1 <= k <= |es|
    ensures StampAt(es, Some(k)) == Some(Found(k, HmacLabel(PrevOf(es[..k], k))))
    ensures forall more :: StampAt(es + more, Some(k)) == StampAt(es, Some(k))
  {
    forall more: seq<Event> ensures StampAt(es + more, Some(k)) == StampAt(es, Some(k)) {
      assert (es + more)[k - 1] == es[k - 1];
    }
  }
}
