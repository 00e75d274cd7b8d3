/**
  Admission of public RPC calls: token buckets for every client and for the whole process, an LRU of
  client buckets, and a bound on calls in flight. Tokens are reals; times are integer milliseconds.
 */
module RpcAdmission {
  import opened Prelude

  // ---------------------------------------------------------------- what a call costs

  const READ_METHODS := {
    "eth_chainId", "net_version", "eth_blockNumber", "eth_gasPrice", "eth_maxPriorityFeePerGas", "eth_feeHistory",
    "eth_getBalance", "eth_getCode", "eth_getStorageAt", "eth_getTransactionCount", "eth_getProof",
    "eth_getBlockByNumber", "eth_getBlockByHash", "eth_getTransactionByHash", "eth_getTransactionReceipt",
    "eth_getBlockTransactionCountByHash", "eth_getBlockTransactionCountByNumber", "eth_getLogs", "eth_call",
    "eth_estimateGas"}

  /** The block range of a log query; anything that is not two block numbers is Unreadable. */
  datatype Filter = Unreadable | OneBlock | Range(first: nat, last: nat)

  datatype Call = Call(rpc: string, filter: Filter)

  function LogCost(f: Filter): (units: nat) {
    match f
    case Unreadable => 256
    case OneBlock => 16
    case Range(first, last) =>
      if last < first then 256
      else
        var chunks := (last - first) / 100 + 1;
        if chunks > 16 then 256 else chunks * 16
  }

  function Cost(call: Call): nat {
    if call.rpc !in READ_METHODS then 8
    else if call.rpc == "eth_getLogs" then LogCost(call.filter)
    else if call.rpc == "eth_estimateGas" then 8
    else if call.rpc == "eth_call" || call.rpc == "eth_feeHistory" then 4
    else if "eth_getBlock" <= call.rpc || "eth_getTransaction" <= call.rpc || "eth_getProof" <= call.rpc then 2
    else 1
  }

  /** Sixteen units for every hundred blocks begun, capped; longer ranges never cost less. */
  lemma LogCostIsMonotone(first: nat, last: nat, further: nat)
    requires first <= last <= further
    ensures 16 <= LogCost(Range(first, last)) <= LogCost(Range(first, further)) <= 256
    ensures LogCost(Range(first, last)) < 256 ==> 16 * (last - first + 1) <= 100 * LogCost(Range(first, last))
    ensures LogCost(Range(first, last)) < 256 ==> 100 * (LogCost(Range(first, last)) - 16) < 16 * (last - first + 1)
  {
    var a, b := (last - first) / 100, (further - first) / 100;
    assert a * 100 <= last - first < a * 100 + 100;
    assert a <= b;
  }

  /** What every method costs: log queries by their range, blocks, transactions and proofs 2, unknown methods 8. */
  lemma CostTable(rpc: string, f: Filter)
    ensures Cost(Call(rpc, f)) ==
              if rpc == "eth_getLogs" then LogCost(f)
              else if rpc == "eth_estimateGas" then 8
              else if rpc in {"eth_call", "eth_feeHistory"} then 4
              else if rpc in {"eth_getBlockByNumber", "eth_getBlockByHash", "eth_getBlockTransactionCountByHash",
                              "eth_getBlockTransactionCountByNumber", "eth_getTransactionCount", "eth_getTransactionByHash",
                              "eth_getTransactionReceipt", "eth_getProof"} then 2
              else if rpc in {"eth_chainId", "net_version", "eth_blockNumber", "eth_gasPrice", "eth_maxPriorityFeePerGas",
                              "eth_getBalance", "eth_getCode", "eth_getStorageAt"} then 1
              else 8
    ensures LogCost(Unreadable) == 256 && LogCost(OneBlock) == 16
    ensures f.Range? && f.last < f.first ==> LogCost(f) == 256
  {
    if rpc in READ_METHODS { DearReads(rpc); }
  }

  /** Among the read methods, those about blocks, transactions and proofs are the dearer ones. */
  lemma DearReads(rpc: string)
    requires rpc in READ_METHODS
    ensures "eth_getBlock" <= rpc || "eth_getTransaction" <= rpc || "eth_getProof" <= rpc
            <==> rpc in {"eth_getBlockByNumber", "eth_getBlockByHash", "eth_getBlockTransactionCountByHash",
                         "eth_getBlockTransactionCountByNumber", "eth_getTransactionCount", "eth_getTransactionByHash",
                         "eth_getTransactionReceipt", "eth_getProof"}
  {
    var block, transaction, proof := "eth_getBlock", "eth_getTransaction", "eth_getProof";
    assert block[8] == 'l' && transaction[7] == 'T' && proof[7] == 'P' && block[7] == 'B';
    assert block[4] == transaction[4] == proof[4] == 'g' && block[5] == transaction[5] == proof[5] == 'e';
    assert block[0] == transaction[0] == proof[0] == 'e' && block[6] == transaction[6] == proof[6] == 't';
  }

  function CostOf(call: Call): int { Cost(call) }

  function Units(calls: seq<Call>): int { Sum(calls, CostOf) }

  // ---------------------------------------------------------------- buckets

  datatype Bucket = Bucket(tokens: real, updatedAt: int)

  function Forward(from: int, to: int): int { Max(0, to - from) }

  function PerMinute(capacity: nat, elapsed: int): real { capacity as real * elapsed as real / 60000.0 }

  function Refill(b: Bucket, capacity: nat, now: int): Bucket {
    var tokens := b.tokens + PerMinute(capacity, Forward(b.updatedAt, now));
    Bucket(if tokens <= capacity as real then tokens else capacity as real, now)
  }

  function Spend(b: Bucket, units: int): Bucket {
    b.(tokens := if b.tokens >= units as real then b.tokens - units as real else 0.0)
  }

  // ---------------------------------------------------------------- state

  const MAX_CLIENTS := 4096

  datatype Config = Config(enforce: bool, perClient: nat, globally: nat, maxConcurrent: nat)

  datatype Permit = Permit(slots: nat, released: bool)

  datatype Reason = Concurrency | ClientBudget | GlobalBudget

  /** order lists the clients from the least to the most recently used. */
  datatype State = State(
    clients: map<string, Bucket>, order: seq<string>, global: Bucket, inFlight: int, permits: seq<Permit>)

  function Without(order: seq<string>, client: string): (r: seq<string>)
    ensures |r| <= |order|
  {
    if order == [] then []
    else Without(order[..|order| - 1], client) + if order[|order| - 1] == client then [] else [order[|order| - 1]]
  }

  /** The client's bucket moves to the end of the order; a new client may push out the first. */
  function Touched(cfg: Config, s: State, client: string, now: int): State {
    if client in s.clients then s.(order := Without(s.order, client) + [client])
    else
      var kept := if |s.clients| >= MAX_CLIENTS && s.order != []
        then s.(clients := s.clients - {s.order[0]}, order := s.order[1..]) else s;
      kept.(clients := kept.clients[client := Bucket(cfg.perClient as real, now)], order := kept.order + [client])
  }

  datatype Entry = Entry(client: string, calls: seq<Call>, slots: nat, now: int)

  function Objection(cfg: Config, s: State, e: Entry): Option<Reason>
    requires e.client in s.clients
  {
    if s.inFlight + e.slots > cfg.maxConcurrent then Some(Concurrency)
    else if Units(e.calls) as real > s.clients[e.client].tokens then Some(ClientBudget)
    else if Units(e.calls) as real > s.global.tokens then Some(GlobalBudget)
    else None
  }

  function Refilled(cfg: Config, s: State, e: Entry): (r: State)
    ensures e.client in r.clients
  {
    var t := Touched(cfg, s, e.client, e.now);
    t.(clients := t.clients[e.client := Refill(t.clients[e.client], cfg.perClient, e.now)],
       global := Refill(t.global, cfg.globally, e.now))
  }

  predicate Allowed(cfg: Config, s: State, e: Entry) {
    e.calls == [] || !cfg.enforce || Objection(cfg, Refilled(cfg, s, e), e).None?
  }

  function Entered(cfg: Config, s: State, e: Entry): State {
    if e.calls == [] then s
    else
      var r := Refilled(cfg, s, e);
      if !Allowed(cfg, s, e) then r
      else
        r.(clients := r.clients[e.client := Spend(r.clients[e.client], Units(e.calls))],
           global := Spend(r.global, Units(e.calls)),
           inFlight := r.inFlight + e.slots,
           permits := r.permits + [Permit(e.slots, false)])
  }

  function Released(s: State, i: nat): State {
    if i >= |s.permits| || s.permits[i].released then s
    else s.(inFlight := s.inFlight - s.permits[i].slots, permits := s.permits[i := s.permits[i].(released := true)])
  }

  function Started(cfg: Config, now: int): State { State(map[], [], Bucket(cfg.globally as real, now), 0, []) }

  // ---------------------------------------------------------------- the decision

  /** What a bucket holds at a time: refilled evenly, its capacity in a minute, and never more than that. */
  function TokensAt(b: Bucket, capacity: nat, now: int): real {
    var passed := if b.updatedAt < now then now - b.updatedAt else 0;
    var tokens := b.tokens + capacity as real * passed as real / 60_000.0;
    if capacity as real < tokens then capacity as real else tokens
  }

  /** Less what is spent, but never below nothing. */
  function Left(tokens: real, units: int): real { if units as real < tokens then tokens - units as real else 0.0 }

  /** A new client starts with a full bucket. */
  function ClientTokens(cfg: Config, s: State, client: string, now: int): real {
    if client in s.clients then TokensAt(s.clients[client], cfg.perClient, now) else cfg.perClient as real
  }

  /** Why an entry that asks for something is refused, or would be if the limits were enforced. */
  function ReasonAgainst(cfg: Config, s: State, e: Entry): Option<Reason> {
    if cfg.maxConcurrent < s.inFlight + e.slots then Some(Concurrency)
    else if ClientTokens(cfg, s, e.client, e.now) < Units(e.calls) as real then Some(ClientBudget)
    else if TokensAt(s.global, cfg.globally, e.now) < Units(e.calls) as real then Some(GlobalBudget)
    else None
  }

  /** The client that makes room for a new one, if the table is full: the least recently used. */
  function EvictedFor(s: State, client: string): Option<string> {
    if client in s.clients || |s.clients| < 4096 || s.order == [] then None else Some(s.order[0])
  }

  /** The client is now the most recently used, and only the one evicted for it has left. */
  ghost predicate MostRecent(s: State, client: string, next: State) {
    && client in next.clients
    && (forall c :: c != client ==>
          if c in s.clients && EvictedFor(s, client) != Some(c) then c in next.clients && next.clients[c] == s.clients[c]
          else c !in next.clients)
    && next.order == (if client in s.clients then Without(s.order, client)
                      else if EvictedFor(s, client).Some? then s.order[1..] else s.order) + [client]
  }

  /** After an entry: both buckets are refilled and pay if it is let in, its slots are taken, and no other bucket changes. */
  ghost predicate EntryEffect(cfg: Config, s: State, e: Entry, next: State, allowed: bool) {
    var units := if allowed then Units(e.calls) else 0;
    && next.global == Bucket(Left(TokensAt(s.global, cfg.globally, e.now), units), e.now)
    && MostRecent(s, e.client, next)
    && next.clients[e.client] == Bucket(Left(ClientTokens(cfg, s, e.client, e.now), units), e.now)
    && next.inFlight == s.inFlight + (if allowed then e.slots else 0)
    && next.permits == s.permits + (if allowed then [Permit(e.slots, false)] else [])
  }

  lemma TouchedIsMostRecent(cfg: Config, s: State, client: string, now: int)
    requires OrderOk(s)
    ensures MostRecent(s, client, Touched(cfg, s, client, now))
    ensures Touched(cfg, s, client, now).clients[client]
            == if client in s.clients then s.clients[client] else Bucket(cfg.perClient as real, now)
  {
    hide Without;
  }

  lemma RefilledIs(cfg: Config, s: State, e: Entry)
    requires StateOk(cfg, s)
    ensures var r := Refilled(cfg, s, e);
            && r.global == Bucket(TokensAt(s.global, cfg.globally, e.now), e.now) && MostRecent(s, e.client, r)
            && r.clients[e.client] == Bucket(ClientTokens(cfg, s, e.client, e.now), e.now)
            && r.inFlight == s.inFlight && r.permits == s.permits
            && 0.0 <= r.global.tokens && 0.0 <= r.clients[e.client].tokens
  {
    TouchedIsMostRecent(cfg, s, e.client, e.now);
    TokensAre(if e.client in s.clients then s.clients[e.client] else Bucket(cfg.perClient as real, e.now), cfg.perClient, e.now);
    TokensAre(s.global, cfg.globally, e.now);
    TouchedElsewhere(cfg, s, e.client, e.now);
    var t := Touched(cfg, s, e.client, e.now);
    hide Touched, TokensAt, Refill, Without;
    OthersStay(s, e.client, t, Refilled(cfg, s, e));
  }

  lemma TouchedElsewhere(cfg: Config, s: State, client: string, now: int)
    ensures var t := Touched(cfg, s, client, now);
            t.global == s.global && t.inFlight == s.inFlight && t.permits == s.permits
  {
  }

  lemma OthersStay(s: State, client: string, t: State, next: State)
    requires MostRecent(s, client, t) && client in next.clients && next.order == t.order
    requires next.clients == t.clients[client := next.clients[client]]
    ensures MostRecent(s, client, next)
  {
    hide Without, EvictedFor;
  }

  /** The decision, the reason and the new state, in terms of the old state and the clock. */
  lemma DecisionIs(cfg: Config, s: State, e: Entry)
    requires StateOk(cfg, s) && e.calls != []
    ensures Objection(cfg, Refilled(cfg, s, e), e) == ReasonAgainst(cfg, s, e)
    ensures Allowed(cfg, s, e) <==> ReasonAgainst(cfg, s, e).None? || !cfg.enforce
    ensures EntryEffect(cfg, s, e, Entered(cfg, s, e), Allowed(cfg, s, e))
  {
    RefilledIs(cfg, s, e);
    UnitsAreNatural(e.calls);
    hide Units, TokensAt, Refilled, MostRecent, ClientTokens;
    OthersStay(s, e.client, Refilled(cfg, s, e), Entered(cfg, s, e));
  }

  lemma TokensAre(b: Bucket, capacity: nat, now: int)
    requires Within(b, capacity)
    ensures Refill(b, capacity, now) == Bucket(TokensAt(b, capacity, now), now) && 0.0 <= TokensAt(b, capacity, now)
    ensures b.tokens == capacity as real && b.updatedAt == now ==> TokensAt(b, capacity, now) == capacity as real
  {
    var passed := if b.updatedAt < now then now - b.updatedAt else 0;
    assert capacity as real * passed as real / 60_000.0 >= 0.0;
  }

  // ---------------------------------------------------------------- the object

  class Admission {
    const cfg: Config
    var clients: map<string, Bucket>
    var order: seq<string>
    var global: Bucket
    var inFlight: int
    var permits: seq<Permit>

    ghost function View(): State reads this { State(clients, order, global, inFlight, permits) }

    constructor (config: Config, now: int)
      ensures cfg == config && View() == Started(config, now)
    {
      cfg := config;
      clients, order, global, inFlight, permits := map[], [], Bucket(config.globally as real, now), 0, [];
    }

    method ClientBucket(client: string, now: int) returns (b: Bucket)
      modifies this`clients, this`order
      ensures View() == Touched(cfg, old(View()), client, now)
      ensures client in clients && b == clients[client]
    {
      if client in clients {
        order := Without(order, client) + [client];
        return clients[client];
      }
      if |clients| >= MAX_CLIENTS && order != [] {
        clients := clients - {order[0]};
        order := order[1..];
      }
      b := Bucket(cfg.perClient as real, now);
      clients := clients[client := b];
      order := order + [client];
    }

    /** Both buckets are refilled, whatever the decision. */
    method RefillBuckets(e: Entry) returns (b: Bucket)
      modifies this`clients, this`order, this`global
      ensures View() == Refilled(cfg, old(View()), e) && e.client in clients && b == clients[e.client]
    {
      b := ClientBucket(e.client, e.now);
      b := Refill(b, cfg.perClient, e.now);
      clients := clients[e.client := b];
      global := Refill(global, cfg.globally, e.now);
    }

    method CountUnits(calls: seq<Call>) returns (units: int)
      ensures units == Units(calls)
    {
      units := 0;
      for i := 0 to |calls|
        invariant units == Units(calls[..i])
      {
        assert calls[..i + 1][..i] == calls[..i];
        units := units + Cost(calls[i]);
      }
      assert calls[..|calls|] == calls;
    }

    /** permit is the position of the reservation, if calls were admitted. */
    method Enter(e: Entry) returns (allowed: bool, reason: Option<Reason>, permit: Option<nat>)
      modifies this
      ensures View() == Entered(cfg, old(View()), e)
      ensures allowed == Allowed(cfg, old(View()), e)
      ensures permit == if allowed && e.calls != [] then Some(|old(permits)|) else None
      ensures reason == if e.calls == [] then None else Objection(cfg, Refilled(cfg, old(View()), e), e)
      ensures StateOk(cfg, old(View())) && e.calls != [] ==>
                && reason == ReasonAgainst(cfg, old(View()), e) && (allowed <==> reason.None? || !cfg.enforce)
                && EntryEffect(cfg, old(View()), e, View(), allowed)
    {
      if StateOk(cfg, View()) && e.calls != [] { DecisionIs(cfg, View(), e); }
      hide EntryEffect, ReasonAgainst, StateOk, Touched, Refill, Spend, Units;
      reason, permit := None, None;
      if e.calls == [] { return true, None, None; }
      var b := RefillBuckets(e);
      hide Refilled;
      var units := CountUnits(e.calls);
      reason := if inFlight + e.slots > cfg.maxConcurrent then Some(Concurrency)
        else if units as real > b.tokens then Some(ClientBudget)
        else if units as real > global.tokens then Some(GlobalBudget)
        else None;
      allowed := reason.None? || !cfg.enforce;
      if !allowed { return; }
      clients := clients[e.client := Spend(b, units)];
      global := Spend(global, units);
      inFlight := inFlight + e.slots;
      permit := Some(|permits|);
      permits := permits + [Permit(e.slots, false)];
    }

    /** Releasing twice is releasing once. */
    method Release(i: nat)
      modifies this`inFlight, this`permits
      ensures View() == Released(old(View()), i)
    {
      if i >= |permits| || permits[i].released { return; }
      inFlight := inFlight - permits[i].slots;
      permits := permits[i := permits[i].(released := true)];
    }
  }

  // ---------------------------------------------------------------- what every state satisfies

  function SlotsHeld(p: Permit): int { if p.released then 0 else p.slots }

  ghost predicate Within(b: Bucket, capacity: nat) { 0.0 <= b.tokens <= capacity as real }

  ghost predicate OrderOk(s: State) {
    && NoDuplicates(s.order) && |s.order| == |s.clients| <= MAX_CLIENTS
    && (forall c :: c in s.order <==> c in s.clients)
  }

  ghost predicate StateOk(cfg: Config, s: State) {
    && OrderOk(s)
    && s.inFlight == Sum(s.permits, SlotsHeld)
    && (cfg.enforce ==> s.inFlight <= cfg.maxConcurrent)
    && Within(s.global, cfg.globally)
    && (forall c :: c in s.clients ==> Within(s.clients[c], cfg.perClient))
  }

  lemma {:induction false} WithoutMembers(order: seq<string>, client: string)
    requires NoDuplicates(order)
    ensures NoDuplicates(Without(order, client))
    ensures forall c :: c in Without(order, client) <==> c in order && c != client
    ensures |Without(order, client)| == |order| - if client in order then 1 else 0
  {
    if order != [] {
      var init, last := order[..|order| - 1], order[|order| - 1];
      WithoutMembers(init, client);
      assert last !in init;
      assert order == init + [last];
      AppendedDistinct(Without(init, client), last);
    }
  }

  lemma AppendedDistinct(xs: seq<string>, x: string)
    requires NoDuplicates(xs) && x !in xs
    ensures NoDuplicates(xs + [x])
  {
  }

  lemma RefillKeepsBounds(b: Bucket, capacity: nat, now: int)
    requires Within(b, capacity)
    ensures Within(Refill(b, capacity, now), capacity)
  {
    assert PerMinute(capacity, Forward(b.updatedAt, now)) >= 0.0;
  }

  lemma TouchedIsOk(cfg: Config, s: State, client: string, now: int)
    requires OrderOk(s)
    ensures OrderOk(Touched(cfg, s, client, now))
    ensures client in Touched(cfg, s, client, now).clients
  {
    if client in s.clients {
      WithoutMembers(s.order, client);
      AppendedDistinct(Without(s.order, client), client);
    } else if |s.clients| >= MAX_CLIENTS && s.order != [] {
      var kept := s.(clients := s.clients - {s.order[0]}, order := s.order[1..]);
      EvictionIsOk(s, kept);
      NewClientIsOk(kept, client, Bucket(cfg.perClient as real, now));
    } else {
      NewClientIsOk(s, client, Bucket(cfg.perClient as real, now));
    }
  }

  lemma EvictionIsOk(s: State, kept: State)
    requires OrderOk(s) && s.order != []
    requires kept == s.(clients := s.clients - {s.order[0]}, order := s.order[1..])
    ensures OrderOk(kept) && |kept.clients| < MAX_CLIENTS
  {
    assert kept.clients.Keys == s.clients.Keys - {s.order[0]};
    assert |kept.clients.Keys| == |s.clients.Keys| - 1;
    forall c ensures c in kept.order <==> c in s.order && c != s.order[0] {
      assert s.order == [s.order[0]] + s.order[1..];
    }
  }

  lemma NewClientIsOk(s: State, client: string, b: Bucket)
    requires OrderOk(s) && client !in s.clients && |s.clients| < MAX_CLIENTS
    ensures OrderOk(s.(clients := s.clients[client := b], order := s.order + [client]))
  {
    GrownMap(s.clients, client, b);
    AppendedDistinct(s.order, client);
  }

  lemma GrownMap(m: map<string, Bucket>, client: string, b: Bucket)
    requires client !in m
    ensures |m[client := b]| == |m| + 1
  {
    assert m[client := b].Keys == m.Keys + {client};
    assert |m[client := b].Keys| == |m.Keys + {client}|;
  }

  lemma TouchingIsOk(cfg: Config, s: State, client: string, now: int)
    requires StateOk(cfg, s)
    ensures StateOk(cfg, Touched(cfg, s, client, now)) && client in Touched(cfg, s, client, now).clients
  {
    TouchedIsOk(cfg, s, client, now);
    hide OrderOk;
  }

  lemma RefilledIsOk(cfg: Config, s: State, e: Entry)
    requires StateOk(cfg, s)
    ensures StateOk(cfg, Refilled(cfg, s, e))
  {
    TouchingIsOk(cfg, s, e.client, e.now);
    hide Touched, Refill, Within, Sum;
    var t := Touched(cfg, s, e.client, e.now);
    RefillKeepsBounds(t.clients[e.client], cfg.perClient, e.now);
    RefillKeepsBounds(t.global, cfg.globally, e.now);
    var r := Refilled(cfg, s, e);
    assert r.clients.Keys == t.clients.Keys;
  }

  lemma UnitsAreNatural(calls: seq<Call>)
    ensures 0 <= Units(calls)
  {
    SumNonnegative(calls, CostOf);
  }

  /** Other buckets under the same clients leave the order right. */
  lemma SameClientsSameOrder(a: State, b: State)
    requires OrderOk(a) && b.order == a.order && b.clients.Keys == a.clients.Keys
    ensures OrderOk(b)
  {
    assert |a.clients| == |a.clients.Keys| && |b.clients| == |b.clients.Keys|;
  }

  lemma SpendKeepsBounds(b: Bucket, capacity: nat, units: int)
    requires Within(b, capacity) && 0 <= units
    ensures Within(Spend(b, units), capacity)
  {
  }

  lemma EnteredIsOk(cfg: Config, s: State, e: Entry)
    requires StateOk(cfg, s)
    ensures StateOk(cfg, Entered(cfg, s, e))
  {
    if e.calls != [] {
      RefilledIsOk(cfg, s, e);
      UnitsAreNatural(e.calls);
      var r, n := Refilled(cfg, s, e), Entered(cfg, s, e);
      if Allowed(cfg, s, e) {
        SpendKeepsBounds(r.clients[e.client], cfg.perClient, Units(e.calls));
        SpendKeepsBounds(r.global, cfg.globally, Units(e.calls));
        SumAppend(r.permits, [Permit(e.slots, false)], SlotsHeld);
        SumSingle(Permit(e.slots, false), SlotsHeld);
        hide Refilled, Spend, Within, Sum, OrderOk, Units;
        assert n.clients.Keys == r.clients.Keys;
        SameClientsSameOrder(r, n);
      }
    }
  }

  lemma {:induction false} SumOfUpdate(permits: seq<Permit>, i: nat, p: Permit)
    requires i < |permits|
    ensures Sum(permits[i := p], SlotsHeld) == Sum(permits, SlotsHeld) - SlotsHeld(permits[i]) + SlotsHeld(p)
  {
    var n := |permits| - 1;
    if i < n {
      assert permits[i := p][..n] == permits[..n][i := p];
      SumOfUpdate(permits[..n], i, p);
    } else {
      assert permits[i := p][..n] == permits[..n];
    }
  }

  lemma ReleasedIsOk(cfg: Config, s: State, i: nat)
    requires StateOk(cfg, s)
    ensures StateOk(cfg, Released(s, i))
  {
    if i < |s.permits| && !s.permits[i].released {
      SumOfUpdate(s.permits, i, s.permits[i].(released := true));
    }
  }

  /**
    Releasing a permit gives back exactly the slots it still holds; releasing it again changes nothing.
   */
  lemma ReleasingTwiceIsReleasingOnce(s: State, i: nat)
    requires i < |s.permits|
    ensures Released(s, i).inFlight == s.inFlight - SlotsHeld(s.permits[i])
    ensures Released(s, i).permits[i].released
    ensures Released(Released(s, i), i) == Released(s, i)
    ensures Sum(Released(s, i).permits, SlotsHeld) == Sum(s.permits, SlotsHeld) - SlotsHeld(s.permits[i])
  {
    if !s.permits[i].released { SumOfUpdate(s.permits, i, s.permits[i].(released := true)); }
  }

  /** A released permit stays released, so that a late second release is silent. */
  lemma ReleasedStays(cfg: Config, s: State, i: nat, e: Entry, j: nat)
    requires i < |s.permits| && s.permits[i].released
    ensures i < |Entered(cfg, s, e).permits| && Entered(cfg, s, e).permits[i].released
    ensures i < |Released(s, j).permits| && Released(s, j).permits[i].released
    ensures Released(Entered(cfg, s, e), i) == Entered(cfg, s, e)
    ensures Released(Released(s, j), i) == Released(s, j)
  {
    hide Objection, Refill, Spend;
  }
}
