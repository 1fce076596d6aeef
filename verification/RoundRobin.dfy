/**
 Fanning multimodal items out to encoders, round-robin over a counter shared by all requests.
 */
module RoundRobin {
  import opened Arith
  import opened Options

  datatype Item = Item(kind: string, body: int)

  /** None for a message whose content is not a list. */
  datatype Message = Message(content: Option<seq<Item>>)

  type Request = seq<Message>

  predicate Multimodal(item: Item)
  {
    item.kind == "image_url" || item.kind == "audio_url" || item.kind == "input_audio"
  }

  function Kept(items: seq<Item>): seq<Item>
  {
    if items == [] then []
    else if Multimodal(items[|items| - 1]) then Kept(items[..|items| - 1]) + [items[|items| - 1]]
    else Kept(items[..|items| - 1])
  }

  /** Every multimodal item of the request, in order. */
  function Items(messages: Request): seq<Item>
  {
    if messages == [] then []
    else
      var last := messages[|messages| - 1].content;
      Items(messages[..|messages| - 1]) + (if last.Some? then Kept(last.value) else [])
  }

  /** A place in a request: message, then position in its content. */
  datatype Place = Place(message: nat, position: nat)
  {
    predicate Before(other: Place)
    {
      message < other.message || (message == other.message && position < other.position)
    }
  }

  /** The place holds a multimodal item. */
  predicate IsItem(messages: Request, p: Place)
  {
    && p.message < |messages| && messages[p.message].content.Some?
    && p.position < |messages[p.message].content.value| && Multimodal(messages[p.message].content.value[p.position])
  }

  /** `items` are what lies at these places, which are all the multimodal ones, first to last. */
  ghost predicate LieAt(messages: Request, items: seq<Item>, places: seq<Place>)
  {
    && |places| == |items|
    && (forall k | 0 <= k < |places| :: Holds(messages, places[k], items[k]))
    && (forall k, l | 0 <= k < l < |places| :: places[k].Before(places[l]))
    && (forall p | IsItem(messages, p) :: p in places)
  }

  predicate Holds(messages: Request, p: Place, item: Item)
  {
    IsItem(messages, p) && messages[p.message].content.value[p.position] == item
  }

  /** The same within one message's content. */
  ghost predicate KeptAt(content: seq<Item>, kept: seq<Item>, at: seq<nat>)
  {
    && |at| == |kept|
    && (forall k | 0 <= k < |at| :: at[k] < |content| && kept[k] == content[at[k]] && Multimodal(kept[k]))
    && (forall k, l | 0 <= k < l < |at| :: at[k] < at[l])
    && (forall j: nat | j < |content| && Multimodal(content[j]) :: j in at)
  }

  function Positions(items: seq<Item>): seq<nat>
  {
    if items == [] then []
    else if Multimodal(items[|items| - 1]) then Positions(items[..|items| - 1]) + [|items| - 1]
    else Positions(items[..|items| - 1])
  }

  lemma {:induction false} PositionsSelect(items: seq<Item>)
    ensures |Positions(items)| == |Kept(items)|
    ensures forall k | 0 <= k < |Positions(items)| ::
              Positions(items)[k] < |items| && Kept(items)[k] == items[Positions(items)[k]]
    ensures forall k | 0 <= k < |Kept(items)| :: Multimodal(Kept(items)[k])
  {
    if items != [] { PositionsSelect(items[..|items| - 1]); }
  }

  lemma {:induction false} PositionsClimb(items: seq<Item>)
    ensures forall k, l | 0 <= k < l < |Positions(items)| :: Positions(items)[k] < Positions(items)[l]
  {
    if items != [] {
      PositionsClimb(items[..|items| - 1]);
      PositionsSelect(items[..|items| - 1]);
    }
  }

  lemma {:induction false} PositionsComplete(items: seq<Item>, j: nat)
    requires j < |items| && Multimodal(items[j])
    ensures j in Positions(items)
  {
    if j < |items| - 1 { PositionsComplete(items[..|items| - 1], j); }
  }

  lemma KeptLieAt(items: seq<Item>)
    ensures KeptAt(items, Kept(items), Positions(items))
  {
    hide Kept, Positions;
    PositionsSelect(items);
    PositionsClimb(items);
    forall j: nat | j < |items| && Multimodal(items[j]) { PositionsComplete(items, j); }
  }

  lemma MessageAdds(messages: Request, content: seq<Item>, items: seq<Item>, before: seq<Place>, kept: seq<Item>,
                    at: seq<nat>)
    returns (places: seq<Place>)
    requires messages != [] && LieAt(messages[..|messages| - 1], items, before) && KeptAt(content, kept, at)
    requires content == if messages[|messages| - 1].content.Some? then messages[|messages| - 1].content.value else []
    ensures LieAt(messages, items + kept, places)
  {
    var n := |messages| - 1;
    places := before + seq(|at|, k requires 0 <= k < |at| => Place(n, at[k]));
    forall k | 0 <= k < |places| ensures Holds(messages, places[k], (items + kept)[k]) {
      if k < |before| { assert Holds(messages[..n], before[k], items[k]); }
    }
    forall k, l | 0 <= k < l < |places| ensures places[k].Before(places[l]) {
      if k < |before| { assert Holds(messages[..n], before[k], items[k]); }
    }
    forall p | IsItem(messages, p) ensures p in places {
      if p.message < n {
        assert IsItem(messages[..n], p);
      } else {
        var k :| 0 <= k < |at| && at[k] == p.position;
        assert places[|before| + k] == p;
      }
    }
  }

  /** Every multimodal item of the request is extracted, once, in order, and nothing else is. */
  lemma {:induction false} ItemsLieAt(messages: Request) returns (places: seq<Place>)
    ensures LieAt(messages, Items(messages), places)
  {
    if messages == [] {
      places := [];
    } else {
      hide LieAt, KeptAt;
      var n := |messages| - 1;
      var content := if messages[n].content.Some? then messages[n].content.value else [];
      var before := ItemsLieAt(messages[..n]);
      KeptLieAt(content);
      assert Items(messages) == Items(messages[..n]) + Kept(content);
      places := MessageAdds(messages, content, Items(messages[..n]), before, Kept(content), Positions(content));
    }
  }

  /** extract_mm_items */
  method ExtractItems(messages: Request) returns (items: seq<Item>)
    ensures items == Items(messages)
    ensures exists places :: LieAt(messages, items, places)
  {
    ghost var places := ItemsLieAt(messages);
    items := [];
    for i := 0 to |messages|
      invariant items == Items(messages[..i])
    {
      assert messages[..i + 1][..i] == messages[..i];
      if messages[i].content.Some? {
        var content := messages[i].content.value;
        for j := 0 to |content|
          invariant items == Items(messages[..i]) + Kept(content[..j])
        {
          assert content[..j + 1][..j] == content[..j];
          if Multimodal(content[j]) {
            items := items + [content[j]];
          }
        }
        assert content[..|content|] == content;
      }
    }
    assert messages[..|messages|] == messages;
  }

  /** An item, with the index of the encoder it goes to. */
  datatype Send = Send(item: Item, encoder: nat)

  function Sends(items: seq<Item>, start: nat, encoders: nat): (r: seq<Send>)
    requires encoders > 0
    ensures |r| == |items| && forall i | 0 <= i < |items| :: r[i] == Send(items[i], Target(start, i, encoders))
  {
    seq(|items|, i requires 0 <= i < |items| => Send(items[i], Target(start, i, encoders)))
  }

  function Target(start: nat, i: nat, encoders: nat): nat
    requires encoders > 0
  {
    (start + i) % encoders
  }

  class Proxy {
    var counter: nat

    constructor ()
      ensures counter == 0
    {
      counter := 0;
    }

    /** fanout_encoder_primer up to sending; None is the division by zero when there is no encoder to send to. */
    method Fanout(messages: Request, encoders: nat) returns (r: Option<seq<Send>>)
      modifies this
      ensures Items(messages) == [] ==> r == Some([]) && counter == old(counter)
      ensures Items(messages) != [] && encoders == 0 ==> r == None && counter == 0
      ensures Items(messages) != [] && encoders > 0 ==>
        r == Some(Sends(Items(messages), old(counter), encoders))
          && counter == (old(counter) + |Items(messages)|) % encoders
    {
      var items := ExtractItems(messages);
      if items == [] {
        return Some([]);
      }
      var start := counter;
      counter := (start + |items|) % (if encoders > 1 then encoders else 1);
      if encoders == 0 {
        Divides(start + |items|, 1, start + |items|, 0);
        return None;
      }
      var sends: seq<Send> := [];
      for i := 0 to |items|
        invariant |sends| == i && forall j | 0 <= j < i :: sends[j] == Send(items[j], (start + j) % encoders)
      {
        sends := sends + [Send(items[i], (start + i) % encoders)];
      }
      assert sends == Sends(items, start, encoders);
      r := Some(sends);
    }
  }

  /******* Any sequence of requests *******/

  /** The counter after a request, as Fanout leaves it. */
  function Advanced(counter: nat, messages: Request, encoders: nat): nat
    requires encoders > 0
  {
    if Items(messages) == [] then counter else (counter + |Items(messages)|) % encoders
  }

  function AllItems(requests: seq<Request>): seq<Item>
  {
    if requests == [] then [] else Items(requests[0]) + AllItems(requests[1..])
  }

  function AllSends(requests: seq<Request>, counter: nat, encoders: nat): seq<Send>
    requires encoders > 0
  {
    if requests == [] then []
    else
      Sends(Items(requests[0]), counter, encoders) +
      AllSends(requests[1..], Advanced(counter, requests[0], encoders), encoders)
  }

  lemma ModShift(a: nat, k: nat, n: nat)
    requires n > 0
    ensures (a % n + k) % n == (a + k) % n
  {
    var q, b := a / n, a % n + k;
    var s, t := b / n, b % n;
    assert (q + s) * n == q * n + s * n;
    Divides(a + k, n, q + s, t);
  }

  lemma Divides(a: nat, n: nat, q: nat, r: nat)
    requires r < n && a == q * n + r
    ensures a / n == q && a % n == r
  {
    IndexUnique(q, n, r);
  }

  /** Two runs of sends, the second from the counter the first leaves, are one run. */
  lemma SendsChain(items: seq<Item>, later: seq<Item>, c: nat, n: nat)
    requires n > 0
    ensures Sends(items, c, n) + Sends(later, (c + |items|) % n, n) == Sends(items + later, c, n)
  {
    hide Sends, Target;
    var left, right := Sends(items, c, n) + Sends(later, (c + |items|) % n, n), Sends(items + later, c, n);
    forall k | 0 <= k < |right| ensures left[k] == right[k] {
      if k >= |items| { TargetShift(c, |items|, k - |items|, n); }
    }
  }

  lemma TargetShift(c: nat, m: nat, j: nat, n: nat)
    requires n > 0
    ensures Target((c + m) % n, j, n) == Target(c, m + j, n)
  {
    ModShift(c + m, j, n);
  }

  /** Starting from counter c, the k-th item overall is the k-th extracted and goes to encoder (c + k) mod n. */
  lemma {:induction false} SendsAreRoundRobin(requests: seq<Request>, c: nat, n: nat)
    requires n > 0
    ensures AllSends(requests, c, n) == Sends(AllItems(requests), c, n)
    decreases |requests|
  {
    if requests != [] {
      hide Sends, Items;
      var items, later := Items(requests[0]), AllItems(requests[1..]);
      SendsAreRoundRobin(requests[1..], Advanced(c, requests[0], n), n);
      if items == [] {
        assert items + later == later;
      } else {
        SendsChain(items, later, c, n);
      }
    }
  }

  /** How many of these sends go to encoder e. */
  function Load(sends: seq<Send>, e: nat): nat
  {
    if sends == [] then 0 else Load(sends[..|sends| - 1], e) + if sends[|sends| - 1].encoder == e then 1 else 0
  }

  /** An encoder's share of a number of items dealt in turn. */
  function Share(total: nat, n: nat, e: nat): nat
    requires n > 0
  {
    total / n + if e < total % n then 1 else 0
  }

  lemma ShareOneMore(k: nat, n: nat, e: nat)
    requires e < n
    ensures Share(k + 1, n, e) == Share(k, n, e) + (if k % n == e then 1 else 0) && Share(0, n, e) == 0
  {
    var q, r := k / n, k % n;
    assert (q + 1) * n == q * n + n;
    if r + 1 < n { Divides(k + 1, n, q, r + 1); } else { Divides(k + 1, n, q + 1, 0); }
    Divides(0, n, 0, 0);
  }

  lemma {:induction false} LoadOfRoundRobin(items: seq<Item>, n: nat, e: nat)
    requires e < n
    ensures Load(Sends(items, 0, n), e) == Share(|items|, n, e)
  {
    hide Share;
    if items == [] {
      ShareOneMore(0, n, e);
    } else {
      var k := |items| - 1;
      LoadOfRoundRobin(items[..k], n, e);
      assert Sends(items, 0, n)[..k] == Sends(items[..k], 0, n);
      ShareOneMore(k, n, e);
    }
  }

  /** The k-th item goes to encoder k mod n, so no two encoders' totals differ by more than one. */
  lemma LoadsBalance(requests: seq<Request>, n: nat, e: nat, f: nat)
    requires e < n && f < n
    ensures var sends := AllSends(requests, 0, n);
            && |sends| == |AllItems(requests)|
            && (forall k | 0 <= k < |sends| :: sends[k] == Send(AllItems(requests)[k], k % n))
            && Load(sends, e) <= Load(sends, f) + 1
  {
    SendsAreRoundRobin(requests, 0, n);
    LoadOfRoundRobin(AllItems(requests), n, e);
    LoadOfRoundRobin(AllItems(requests), n, f);
  }
}
