/** Session-scoped permission waits: the pending table, its one-shot channels, and the gates that
    wait on them while holding the timeout clock paused. */
module PermissionGate {
  import opened Text

  datatype Phase = BeforeExecution | AfterResult

  datatype Decision = Approve | Skip | Deny(feedback: string)

  datatype Request = Request(session: string, runId: string, call: string, toolName: string, phase: Phase)

  /** The sending half lives in the table, the receiving half in the gate that owns `channel`. */
  datatype Slot = Slot(view: Request, channel: nat)

  datatype Channel = Open | Sent(decision: Decision) | SenderDropped

  datatype Manager = Manager(pending: map<string, Slot>, channels: map<nat, Channel>)

  datatype ResolveResult = Resolved(view: Request) | BlankFeedback | NoSuchRequest

  function PhaseName(p: Phase): string {
    match p
    case BeforeExecution => "BeforeExecution"
    case AfterResult => "AfterResult"
  }

  function RequestKey(session: string, call: string, phase: Phase): string {
    session + ":" + call + ":" + PhaseName(phase)
  }

  function KeyOf(r: Request): string {
    RequestKey(r.session, r.call, r.phase)
  }

  // ----- the request key ------------------------------------------------------------------

  lemma SplitAtColon(a: string, b: string, x: string, y: string)
    requires a + ":" + x == b + ":" + y && ':' !in x && ':' !in y
    ensures a == b && x == y
  {
    var s := a + ":" + x;
    assert s == b + ":" + y;
    assert s[|a|] == ':' && s[|b|] == ':';
    forall i | |a| < i < |s| ensures s[i] != ':' {
      assert s[i] == x[i - |a| - 1];
    }
    forall i | |b| < i < |s| ensures s[i] != ':' {
      assert s[i] == y[i - |b| - 1];
    }
    assert |a| == |b|;
    assert s[..|a|] == a && s[..|b|] == b && s[|a| + 1..] == x && s[|b| + 1..] == y;
  }

  /** With no colon in call ids the key determines session, call and phase, although sessions may contain colons. */
  lemma KeyInjective(s: string, c: string, p: Phase, t: string, d: string, q: Phase)
    requires ':' !in c && ':' !in d && RequestKey(s, c, p) == RequestKey(t, d, q)
    ensures s == t && c == d && p == q
  {
    SplitAtColon(s + ":" + c, t + ":" + d, PhaseName(p), PhaseName(q));
    SplitAtColon(s, t, c, d);
    assert PhaseName(p)[0] == PhaseName(q)[0];
  }

  /** A colon in a call id lets two different requests share a key. */
  lemma KeyCollides(s: string, c: string, d: string, p: Phase)
    ensures RequestKey(s, c + ":" + d, p) == RequestKey(s + ":" + c, d, p)
    ensures s != s + ":" + c
  {
    assert s + ":" + (c + ":" + d) == (s + ":" + c) + ":" + d;
    assert |s + ":" + c| > |s|;
  }

  ghost predicate Collide(s: string, c: string, p: Phase, t: string, d: string, q: Phase) {
    RequestKey(s, c, p) == RequestKey(t, d, q) && !(s == t && c == d && p == q)
  }

  /** The longer call id ends in a colon and the shorter one. */
  predicate EndsIn(c: string, d: string) {
    |c| > |d| && c[|c| - |d| - 1..] == ":" + d
  }

  lemma SharedTail(s: string, c: string, t: string, d: string)
    requires s + ":" + c == t + ":" + d && |c| > |d|
    ensures EndsIn(c, d)
  {
    var whole := s + ":" + c;
    var n := |whole| - |d| - 1;
    assert c[|c| - |d| - 1..] == whole[n..];
    assert (t + ":" + d)[n..] == ":" + d;
  }

  lemma SameLengthCalls(s: string, c: string, t: string, d: string)
    requires s + ":" + c == t + ":" + d && |c| == |d|
    ensures s == t && c == d
  {
    var whole := s + ":" + c;
    assert whole[..|s|] == s && (t + ":" + d)[..|t|] == t;
    assert whole[|s| + 1..] == c && (t + ":" + d)[|t| + 1..] == d;
  }

  lemma EndingCollides(c: string, d: string)
    requires EndsIn(c, d)
    ensures exists s, p, t, q :: Collide(s, c, p, t, d, q)
  {
    var x := c[..|c| - |d| - 1];
    assert c == x + c[|c| - |d| - 1..];
    assert c == x + ":" + d;
    KeyCollides("", x, d, BeforeExecution);
    assert Collide("", c, BeforeExecution, "" + ":" + x, d, BeforeExecution);
  }

  /** Requests for two call ids can share a key exactly when one id ends in a colon and the other. */
  lemma KeyCollidesExactly(c: string, d: string)
    ensures (exists s, p, t, q :: Collide(s, c, p, t, d, q)) <==> EndsIn(c, d) || EndsIn(d, c)
  {
    if s, p, t, q :| Collide(s, c, p, t, d, q) {
      SplitAtColon(s + ":" + c, t + ":" + d, PhaseName(p), PhaseName(q));
      assert PhaseName(p)[0] == PhaseName(q)[0];
      if |c| == |d| {
        SameLengthCalls(s, c, t, d);
      } else if |c| > |d| {
        SharedTail(s, c, t, d);
      } else {
        SharedTail(t, d, s, c);
      }
    }
    if EndsIn(c, d) {
      EndingCollides(c, d);
    }
    if EndsIn(d, c) {
      EndingCollides(d, c);
      var s, p, t, q :| Collide(s, d, p, t, c, q);
      assert Collide(t, c, q, s, d, p);
    }
  }

  // ----- the manager ------------------------------------------------------------------------

  function DropSender(channels: map<nat, Channel>, ch: nat): map<nat, Channel> {
    if ch in channels && channels[ch].Open? then channels[ch := SenderDropped] else channels
  }

  /** Registering over an existing key replaces the old slot and so drops its sender. */
  function Register(m: Manager, view: Request, ch: nat): Manager {
    var key := KeyOf(view);
    var kept := if key in m.pending then DropSender(m.channels, m.pending[key].channel) else m.channels;
    Manager(m.pending[key := Slot(view, ch)], kept[ch := Open])
  }

  function Resolve(m: Manager, session: string, call: string, phase: Phase, decision: Decision)
    : (Manager, ResolveResult)
  {
    var key := RequestKey(session, call, phase);
    if decision.Deny? && AllWhitespace(decision.feedback) then (m, BlankFeedback)
    else if key !in m.pending then (m, NoSuchRequest)
    else (Manager(m.pending - {key}, m.channels[m.pending[key].channel := Sent(decision)]),
          Resolved(m.pending[key].view))
  }

  predicate InSession(m: Manager, key: string, session: string) {
    key in m.pending && m.pending[key].view.session == session
  }

  function SessionKeys(m: Manager, session: string): set<string> {
    set k | k in m.pending && InSession(m, k, session)
  }

  /** Some slot under one of `keys` holds the sender of `ch`. */
  predicate HoldsSender(pending: map<string, Slot>, keys: set<string>, ch: nat) {
    exists k :: k in keys && k in pending && pending[k].channel == ch
  }

  /** Removes the slots under `keys` and so drops their senders. */
  function DropKeys(m: Manager, keys: set<string>): Manager {
    Manager(m.pending - keys,
            map ch | ch in m.channels ::
              if m.channels[ch].Open? && HoldsSender(m.pending, keys, ch) then SenderDropped else m.channels[ch])
  }

  function DropSession(m: Manager, session: string): Manager {
    DropKeys(m, SessionKeys(m, session))
  }

  lemma HoldsSenderStep(pending: map<string, Slot>, keys: set<string>, key: string, ch: nat)
    requires key in pending
    ensures HoldsSender(pending, keys + {key}, ch) <==> HoldsSender(pending, keys, ch) || pending[key].channel == ch
  {
    if HoldsSender(pending, keys, ch) {
      var k :| k in keys && k in pending && pending[k].channel == ch;
      assert k in keys + {key};
    }
    assert key in keys + {key};
  }

  lemma DropOneMore(m: Manager, keys: set<string>, key: string)
    requires key in m.pending
    ensures var d := DropKeys(m, keys);
            DropKeys(m, keys + {key}) == Manager(d.pending - {key}, DropSender(d.channels, m.pending[key].channel))
  {
    var d, e := DropKeys(m, keys), DropKeys(m, keys + {key});
    assert e.pending == d.pending - {key};
    var channels := DropSender(d.channels, m.pending[key].channel);
    assert e.channels.Keys == channels.Keys;
    forall ch | ch in e.channels ensures e.channels[ch] == channels[ch] {
      HoldsSenderStep(m.pending, keys, key, ch);
    }
  }

  /** The requests of the slots under `keys`. */
  ghost predicate RequestsOf(pending: map<string, Slot>, keys: set<string>, requests: seq<Request>) {
    forall r :: r in requests <==> exists k :: k in keys && k in pending && pending[k].view == r
  }

  lemma RequestsStep(pending: map<string, Slot>, keys: set<string>, requests: seq<Request>, key: string)
    requires RequestsOf(pending, keys, requests) && key in pending
    ensures RequestsOf(pending, keys + {key}, requests + [pending[key].view])
  {
    forall r ensures r in requests + [pending[key].view] <==>
                     exists k :: k in keys + {key} && k in pending && pending[k].view == r
    {
      assert r in requests + [pending[key].view] <==> r in requests || r == pending[key].view;
      assert key in keys + {key};
      if k :| k in keys && k in pending && pending[k].view == r {
        assert k in keys + {key};
      }
    }
  }

  function Forget(m: Manager, key: string): Manager {
    if key in m.pending then Manager(m.pending - {key}, DropSender(m.channels, m.pending[key].channel)) else m
  }

  // ----- what each operation leaves in the table ------------------------------------------------------------

  /** Apart from these keys and channels the two tables are the same. */
  ghost predicate SameElsewhere(m: Manager, n: Manager, keys: set<string>, channels: set<nat>) {
    && (forall k :: k !in keys ==> (k in m.pending <==> k in n.pending))
    && (forall k :: k !in keys && k in m.pending && k in n.pending ==> m.pending[k] == n.pending[k])
    && (forall ch :: ch !in channels ==> (ch in m.channels <==> ch in n.channels))
    && (forall ch :: ch !in channels && ch in m.channels && ch in n.channels ==> m.channels[ch] == n.channels[ch])
  }

  /** Registering puts the request with an open channel under its key; a slot it replaces loses its sender, so whoever
      waited on it is cancelled unless already answered. */
  lemma RegisterInstalls(m: Manager, view: Request, ch: nat)
    ensures var n, key := Register(m, view, ch), view.session + ":" + view.call + ":" + PhaseName(view.phase);
            && key in n.pending && n.pending[key] == Slot(view, ch)
            && ch in n.channels && n.channels[ch] == Open
            && SameElsewhere(m, n, {key}, {ch} + if key in m.pending then {m.pending[key].channel} else {})
            && (key in m.pending && m.pending[key].channel != ch && m.pending[key].channel in m.channels ==>
                  n.channels[m.pending[key].channel] ==
                  if m.channels[m.pending[key].channel] == Open then SenderDropped else m.channels[m.pending[key].channel])
  {
  }

  /** Forgetting a key removes its slot if there is one, and cancels its waiter unless already answered. */
  lemma ForgetRemoves(m: Manager, key: string)
    ensures var n := Forget(m, key);
            && key !in n.pending
            && SameElsewhere(m, n, {key}, if key in m.pending then {m.pending[key].channel} else {})
            && (key in m.pending && m.pending[key].channel in m.channels ==>
                  n.channels[m.pending[key].channel] ==
                  if m.channels[m.pending[key].channel] == Open then SenderDropped else m.channels[m.pending[key].channel])
  {
  }

  class ToolPermissionManager {
    var pending: map<string, Slot>
    var channels: map<nat, Channel>

    ghost function View(): Manager
      reads this
    {
      Manager(pending, channels)
    }

    constructor ()
      ensures View() == Manager(map[], map[])
    {
      pending, channels := map[], map[];
    }

    method RegisterRequest(view: Request, ch: nat) returns (key: string)
      modifies this
      ensures key == KeyOf(view) && View() == Register(old(View()), view, ch)
    {
      key := RequestKey(view.session, view.call, view.phase);
      if key in pending {
        channels := DropSender(channels, pending[key].channel);
      }
      channels := channels[ch := Open];
      pending := pending[key := Slot(view, ch)];
    }

    method ResolveRequest(session: string, call: string, phase: Phase, decision: Decision) returns (r: ResolveResult)
      modifies this
      ensures (View(), r) == Resolve(old(View()), session, call, phase, decision)
    {
      if decision.Deny? && AllWhitespace(decision.feedback) {
        return BlankFeedback;
      }
      var key := RequestKey(session, call, phase);
      if key !in pending {
        return NoSuchRequest;
      }
      var slot := pending[key];
      pending := pending - {key};
      channels := channels[slot.channel := Sent(decision)];
      r := Resolved(slot.view);
    }

    /** Collects the session's keys first, then removes them one by one. */
    method DropSessionSlots(session: string) returns (dropped: seq<Request>)
      modifies this
      ensures View() == DropSession(old(View()), session)
      ensures RequestsOf(old(pending), SessionKeys(old(View()), session), dropped)
    {
      var keys := SessionKeys(Manager(pending, channels), session);
      dropped := [];
      ghost var before, all, done := View(), keys, {};
      assert View() == DropKeys(before, {});
      while keys != {}
        invariant keys !! done && keys + done == all && all <= before.pending.Keys
        invariant View() == DropKeys(before, done) && RequestsOf(before.pending, done, dropped)
        decreases keys
      {
        var key :| key in keys;
        assert pending[key] == before.pending[key];
        DropOneMore(before, done, key);
        RequestsStep(before.pending, done, dropped, key);
        channels := DropSender(channels, pending[key].channel);
        dropped := dropped + [pending[key].view];
        pending := pending - {key};
        keys, done := keys - {key}, done + {key};
      }
      assert done == all;
    }

    method RemoveKey(key: string)
      modifies this
      ensures View() == Forget(old(View()), key)
    {
      if key in pending {
        channels := DropSender(channels, pending[key].channel);
        pending := pending - {key};
      }
    }
  }
}
