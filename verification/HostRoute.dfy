/** tun_darwin.go: pointing a host route at this interface, taking it over from a dead one only. */
module HostRoutes {
  import opened Common
  import opened Text
  import opened NetstatText

  datatype Command = RouteGet(dst: string) | Netstat | RouteDelete(dst: string) | RouteAdd(dst: string, iface: string)

  /** A command's combined output, or its failure. */
  datatype Reply = Failed | Output(text: string)

  datatype Outcome = Done | NotOurs | Unverified | Live | DeleteFailed | AddFailed

  predicate StartsWith(s: string, prefix: string) { prefix <= s }

  /** strings.Index, `|s|` plus one for "not found". */
  function IndexOf(s: string, what: string): (i: nat)
    ensures i <= |s| ==> what <= s[i..]
    decreases |s|
  {
    if what <= s then 0 else if s == "" then 1 else 1 + IndexOf(s[1..], what)
  }

  const KEY := "interface:"

  function InterfaceLine(lines: seq<string>): Option<string>
    decreases |lines|
  {
    if lines == [] then None
    else
      var i := IndexOf(lines[0], KEY);
      if i <= |lines[0]| then Some(TrimSpace(lines[0][i + |KEY|..])) else InterfaceLine(lines[1..])
  }

  /** routeIfaceFor: the interface the kernel names, or an error. */
  function RouteIface(r: Reply): Option<string> {
    match r case Failed => None case Output(text) => InterfaceLine(Lines(text))
  }

  predicate IsUtun(iface: string) { StartsWith(iface, "utun") }

  /** Another utun holds the route: it may be replaced if that utun is idle. */
  predicate Replaceable(cur: Option<string>, name: string) { cur.Some? && cur.value != name && cur.value != "" && IsUtun(cur.value) }

  /** The commands run so far with their replies, and the replies still to come. */
  datatype Shell = Shell(trace: seq<(Command, Reply)>, replies: seq<Reply>)

  function Answer(s: Shell): Reply { if s.replies == [] then Failed else s.replies[0] }

  function After(s: Shell, c: Command): Shell {
    Shell(s.trace + [(c, Answer(s))], if s.replies == [] then [] else s.replies[1..])
  }

  function CountIn(r: Reply, iface: string): Option<Count> {
    match r case Failed => None case Output(text) => FirstCount(Lines(text), iface)
  }

  /** utunIdle: `None` when a sample cannot be taken. */
  function Idle(s: Shell, iface: string, wait: int): (Shell, Option<bool>) {
    var before, s1 := CountIn(Answer(s), iface), After(s, Netstat);
    if before == None then (s1, None)
    else if wait <= 0 then (s1, Some(true))
    else
      var after, s2 := CountIn(Answer(s1), iface), After(s1, Netstat);
      if after == None then (s2, None) else (s2, Some(before == after))
  }

  function Add(s: Shell, name: string, dst: string): (Shell, Outcome) {
    (After(s, RouteAdd(dst, name)), if Answer(s).Output? then Done else AddFailed)
  }

  function Ensure(s: Shell, name: string, dst: string, wait: int): (Shell, Outcome) {
    var cur, s1 := RouteIface(Answer(s)), After(s, RouteGet(dst));
    if cur == Some(name) then (s1, Done)
    else if cur.Some? && cur.value != "" && !IsUtun(cur.value) then (s1, NotOurs)
    else if !Replaceable(cur, name) then Add(s1, name, dst)
    else
      var (s2, idle) := Idle(s1, cur.value, wait);
      if idle == None then (s2, Unverified)
      else if !idle.value then (s2, Live)
      else
        var s3 := After(s2, RouteDelete(dst));
        if Answer(s2).Failed? then (s3, DeleteFailed) else Add(s3, name, dst)
  }

  class Os {
    var trace: seq<(Command, Reply)>
    var replies: seq<Reply>

    function View(): Shell
      reads this
    {
      Shell(trace, replies)
    }

    constructor (replies: seq<Reply>)
      ensures View() == Shell([], replies)
    {
      trace, this.replies := [], replies;
    }

    method RunCmd(c: Command) returns (r: Reply)
      modifies this
      ensures r == Answer(old(View())) && View() == After(old(View()), c)
    {
      r := Failed;
      if replies != [] { r, replies := replies[0], replies[1..]; }
      trace := trace + [(c, r)];
    }

    method RouteIfaceFor(dst: string) returns (iface: Option<string>)
      modifies this
      ensures iface == RouteIface(Answer(old(View()))) && View() == After(old(View()), RouteGet(dst))
    {
      var r := RunCmd(RouteGet(dst));
      if r.Failed? { return None; }
      var lines := Lines(r.text);
      var k := 0;
      while k < |lines|
        invariant k <= |lines| && InterfaceLine(lines[k..]) == InterfaceLine(lines)
      {
        var i := IndexOf(lines[k], KEY);
        if i <= |lines[k]| { return Some(TrimSpace(lines[k][i + |KEY|..])); }
        assert lines[k..][1..] == lines[k + 1..];
        k := k + 1;
      }
      iface := None;
    }

    method Sample(iface: string) returns (count: Option<Count>)
      modifies this
      ensures count == CountIn(Answer(old(View())), iface) && View() == After(old(View()), Netstat)
    {
      var r := RunCmd(Netstat);
      if r.Failed? { return None; }
      count := UtunCounters(r.text, iface);
    }

    method UtunIdle(iface: string, wait: int) returns (idle: Option<bool>)
      modifies this
      ensures (View(), idle) == Idle(old(View()), iface, wait)
    {
      var before := Sample(iface);
      if before == None { return None; }
      if wait <= 0 { return Some(true); }
      var after := Sample(iface);
      if after == None { return None; }
      idle := Some(before == after);
    }

    method EnsureHostRoute(name: string, dst: string, wait: int) returns (o: Outcome)
      modifies this
      ensures (View(), o) == Ensure(old(View()), name, dst, wait)
    {
      var cur := RouteIfaceFor(dst);
      if cur == Some(name) { return Done; }
      if cur.Some? && cur.value != "" && !IsUtun(cur.value) { return NotOurs; }
      if cur.Some? && cur.value != "" && IsUtun(cur.value) && cur.value != name {
        var idle := UtunIdle(cur.value, wait);
        if idle == None { return Unverified; }
        if !idle.value { return Live; }
        var r := RunCmd(RouteDelete(dst));
        if r.Failed? { return DeleteFailed; }
      }
      var r := RunCmd(RouteAdd(dst, name));
      o := if r.Failed? then AddFailed else Done;
    }
  }

  // What a call may do

  predicate Changes(c: Command) { c.RouteDelete? || c.RouteAdd? }

  /** The commands of one call. */
  function Calls(replies: seq<Reply>, name: string, dst: string, wait: int): seq<(Command, Reply)> {
    Ensure(Shell([], replies), name, dst, wait).0.trace
  }

  function Result(replies: seq<Reply>, name: string, dst: string, wait: int): Outcome {
    Ensure(Shell([], replies), name, dst, wait).1
  }

  /** The `i`th reply; every command beyond the given replies fails. */
  function Nth(replies: seq<Reply>, i: nat): Reply { if i < |replies| then replies[i] else Failed }

  function Drop(replies: seq<Reply>, i: nat): seq<Reply> { if i <= |replies| then replies[i..] else [] }

  lemma Next(replies: seq<Reply>, i: nat, s: Shell, c: Command)
    requires s.replies == Drop(replies, i)
    ensures Answer(s) == Nth(replies, i) && After(s, c) == Shell(s.trace + [(c, Nth(replies, i))], Drop(replies, i + 1))
  {
  }

  /** Reading the other utun's counters, after the route has been looked up. */
  lemma IdleCalls(replies: seq<Reply>, s: Shell, iface: string, wait: int)
    requires s.replies == Drop(replies, 1)
    ensures var (v, idle) := Idle(s, iface, wait);
            var first, second := CountIn(Nth(replies, 1), iface), CountIn(Nth(replies, 2), iface);
            var one := Shell(s.trace + [(Netstat, Nth(replies, 1))], Drop(replies, 2));
            var two := Shell(one.trace + [(Netstat, Nth(replies, 2))], Drop(replies, 3));
            && (first == None ==> v == one && idle == None)
            && (first.Some? && wait <= 0 ==> v == one && idle == Some(true))
            && (first.Some? && wait > 0 ==> v == two && idle == if second == None then None else Some(first == second))
  {
    Next(replies, 1, s, Netstat);
    Next(replies, 2, After(s, Netstat), Netstat);
  }

  /** The looking and the readings come first; a delete and an add can only follow. */
  function Looked(replies: seq<Reply>, dst: string, readings: nat): seq<(Command, Reply)> {
    if readings == 0 then [(RouteGet(dst), Nth(replies, 0))]
    else Looked(replies, dst, readings - 1) + [(Netstat, Nth(replies, readings))]
  }

  /** The route is taken over after `n` readings. */
  predicate TakenAfter(t: seq<(Command, Reply)>, replies: seq<Reply>, name: string, dst: string, n: nat, o: Outcome) {
    var deleted := Looked(replies, dst, n) + [(RouteDelete(dst), Nth(replies, n + 1))];
    if Nth(replies, n + 1).Failed? then t == deleted && o == DeleteFailed
    else t == deleted + [(RouteAdd(dst, name), Nth(replies, n + 2))] && o == if Nth(replies, n + 2).Output? then Done else AddFailed
  }

  predicate Added(t: seq<(Command, Reply)>, replies: seq<Reply>, name: string, dst: string, o: Outcome) {
    t == Looked(replies, dst, 0) + [(RouteAdd(dst, name), Nth(replies, 1))] && o == if Nth(replies, 1).Output? then Done else AddFailed
  }

  lemma TakeOver(replies: seq<Reply>, name: string, dst: string, s: Shell, n: nat)
    requires s == Shell(Looked(replies, dst, n), Drop(replies, n + 1))
    ensures var s3 := After(s, RouteDelete(dst));
            var (v, o) := if Answer(s).Failed? then (s3, DeleteFailed) else Add(s3, name, dst);
            TakenAfter(v.trace, replies, name, dst, n, o)
  {
    Next(replies, n + 1, s, RouteDelete(dst));
    Next(replies, n + 2, After(s, RouteDelete(dst)), RouteAdd(dst, name));
  }

  /** Every call is one of these: left alone, added, refused after one or two readings, or taken over after them. */
  lemma CallsAre(replies: seq<Reply>, name: string, dst: string, wait: int)
    ensures var t, o, cur := Calls(replies, name, dst, wait), Result(replies, name, dst, wait), RouteIface(Nth(replies, 0));
            if !Replaceable(cur, name) then
              (t == Looked(replies, dst, 0) && o == (if cur == Some(name) then Done else NotOurs)) || (cur != Some(name) && Added(t, replies, name, dst, o))
            else
              var first, second := CountIn(Nth(replies, 1), cur.value), CountIn(Nth(replies, 2), cur.value);
              if first == None then t == Looked(replies, dst, 1) && o == Unverified
              else if wait <= 0 then TakenAfter(t, replies, name, dst, 1, o)
              else if second == None then t == Looked(replies, dst, 2) && o == Unverified
              else if first != second then t == Looked(replies, dst, 2) && o == Live
              else TakenAfter(t, replies, name, dst, 2, o)
  {
    var s := Shell([], replies);
    assert Drop(replies, 0) == replies;
    Next(replies, 0, s, RouteGet(dst));
    var s1 := After(s, RouteGet(dst));
    assert s1.trace == Looked(replies, dst, 0);
    var cur := RouteIface(Nth(replies, 0));
    if !Replaceable(cur, name) {
      Next(replies, 1, s1, RouteAdd(dst, name));
    } else {
      IdleCalls(replies, s1, cur.value, wait);
      TakeOver(replies, name, dst, Shell(Looked(replies, dst, 1), Drop(replies, 2)), 1);
      TakeOver(replies, name, dst, Shell(Looked(replies, dst, 2), Drop(replies, 3)), 2);
      var (s2, idle) := Idle(s1, cur.value, wait);
      assert s2 == Shell(Looked(replies, dst, 1), Drop(replies, 2)) || s2 == Shell(Looked(replies, dst, 2), Drop(replies, 3));
    }
  }

  lemma {:induction false} LookedChangesNothing(replies: seq<Reply>, dst: string, n: nat)
    ensures |Looked(replies, dst, n)| == n + 1
    ensures forall k :: 0 <= k <= n ==> !Changes(Looked(replies, dst, n)[k].0)
    ensures Looked(replies, dst, n)[0] == (RouteGet(dst), Nth(replies, 0))
  {
    if n > 0 { LookedChangesNothing(replies, dst, n - 1); }
  }

  /** The commands that change the table, and the result they lead to. */
  predicate Shaped(t: seq<(Command, Reply)>, looks: nat, name: string, dst: string, o: Outcome) {
    && looks < |t| <= looks + 2
    && (forall k :: 0 <= k < looks ==> !Changes(t[k].0))
    && (t[looks].0 == RouteDelete(dst) || (t[looks].0 == RouteAdd(dst, name) && |t| == looks + 1))
    && (|t| == looks + 2 ==> t[looks].0 == RouteDelete(dst) && t[looks + 1].0 == RouteAdd(dst, name))
    && (o == Done <==> t[|t| - 1].0 == RouteAdd(dst, name) && t[|t| - 1].1.Output?)
    && (o == Done || o == DeleteFailed || o == AddFailed)
  }

  lemma TakenShape(t: seq<(Command, Reply)>, replies: seq<Reply>, name: string, dst: string, n: nat, o: Outcome)
    requires TakenAfter(t, replies, name, dst, n, o)
    ensures Shaped(t, n + 1, name, dst, o) && t[n + 1].0 == RouteDelete(dst)
  {
    LookedChangesNothing(replies, dst, n);
  }

  lemma AddedShape(t: seq<(Command, Reply)>, replies: seq<Reply>, name: string, dst: string, o: Outcome)
    requires Added(t, replies, name, dst, o)
    ensures Shaped(t, 1, name, dst, o) && t[1].0 == RouteAdd(dst, name)
  {
    LookedChangesNothing(replies, dst, 0);
  }

  predicate LeftAlone(t: seq<(Command, Reply)>, replies: seq<Reply>, name: string, o: Outcome) {
    && t != [] && (forall k :: 0 <= k < |t| ==> !Changes(t[k].0))
    && if RouteIface(Nth(replies, 0)) == Some(name) then o == Done && |t| == 1 && t[0].1 == Nth(replies, 0)
       else (o == NotOurs || o == Unverified || o == Live) && (|t| == 1 ==> t[0].1 == Nth(replies, 0))
  }

  /** The three kinds of call. */
  lemma CallKinds(replies: seq<Reply>, name: string, dst: string, wait: int)
    ensures var t, o, cur := Calls(replies, name, dst, wait), Result(replies, name, dst, wait), RouteIface(Nth(replies, 0));
            || LeftAlone(t, replies, name, o)
            || (!Replaceable(cur, name) && Shaped(t, 1, name, dst, o) && t[1].0.RouteAdd?)
            || (Replaceable(cur, name) && CountIn(Nth(replies, 1), cur.value).Some? && t != [] &&
                if wait <= 0 then Shaped(t, 2, name, dst, o) && t[2].0.RouteDelete?
                else CountIn(Nth(replies, 1), cur.value) == CountIn(Nth(replies, 2), cur.value) && Shaped(t, 3, name, dst, o) && t[3].0.RouteDelete?)
  {
    hide Calls, Result;
    var t, o, cur := Calls(replies, name, dst, wait), Result(replies, name, dst, wait), RouteIface(Nth(replies, 0));
    CallsAre(replies, name, dst, wait);
    if Added(t, replies, name, dst, o) { AddedShape(t, replies, name, dst, o); }
    else if TakenAfter(t, replies, name, dst, 1, o) { TakenShape(t, replies, name, dst, 1, o); }
    else if TakenAfter(t, replies, name, dst, 2, o) { TakenShape(t, replies, name, dst, 2, o); }
    else {
      LookedChangesNothing(replies, dst, 0);
      LookedChangesNothing(replies, dst, 1);
      LookedChangesNothing(replies, dst, 2);
    }
  }

  /**
   With a positive wait a route is deleted only after the kernel named another utun for it and two
   readings of that utun's counters agreed; the delete comes once, for this destination, before the add.
   */
  lemma {:induction false} DeletesOnlyIdle(replies: seq<Reply>, name: string, dst: string, wait: int)
    ensures var t, cur := Calls(replies, name, dst, wait), RouteIface(Nth(replies, 0));
            wait > 0 ==>
              forall k :: 0 <= k < |t| && t[k].0.RouteDelete? ==>
                && k == 3 && t[k].0 == RouteDelete(dst)
                && Replaceable(cur, name) && CountIn(Nth(replies, 1), cur.value).Some?
                && CountIn(Nth(replies, 1), cur.value) == CountIn(Nth(replies, 2), cur.value)
  {
    hide Calls, Result;
    CallKinds(replies, name, dst, wait);
  }

  /** No error means that the route is this interface's already, or that the last command added it. */
  lemma {:induction false} DoneMeansRouted(replies: seq<Reply>, name: string, dst: string, wait: int)
    ensures var t := Calls(replies, name, dst, wait);
            && t != []
            && (Result(replies, name, dst, wait) == Done <==>
                || (|t| == 1 && RouteIface(t[0].1) == Some(name))
                || (t[|t| - 1].0 == RouteAdd(dst, name) && t[|t| - 1].1.Output?))
  {
    hide Calls, Result;
    CallKinds(replies, name, dst, wait);
  }

  /** A refusal leaves the routing table alone, and no call names another destination or interface. */
  lemma {:induction false} RefusalsChangeNothing(replies: seq<Reply>, name: string, dst: string, wait: int)
    ensures var t, o := Calls(replies, name, dst, wait), Result(replies, name, dst, wait);
            forall k :: 0 <= k < |t| && Changes(t[k].0) ==>
              (o == Done || o == DeleteFailed || o == AddFailed) && (t[k].0 == RouteDelete(dst) || t[k].0 == RouteAdd(dst, name))
  {
    var t, o := Calls(replies, name, dst, wait), Result(replies, name, dst, wait);
    CallKinds(replies, name, dst, wait);
    forall k | 0 <= k < |t| && Changes(t[k].0)
      ensures (o == Done || o == DeleteFailed || o == AddFailed) && (t[k].0 == RouteDelete(dst) || t[k].0 == RouteAdd(dst, name))
    {
      if Shaped(t, 1, name, dst, o) { ShapedChange(t, 1, name, dst, o, k); }
      else if Shaped(t, 2, name, dst, o) { ShapedChange(t, 2, name, dst, o, k); }
      else { ShapedChange(t, 3, name, dst, o, k); }
    }
  }

  lemma ShapedChange(t: seq<(Command, Reply)>, looks: nat, name: string, dst: string, o: Outcome, k: nat)
    requires Shaped(t, looks, name, dst, o) && k < |t| && Changes(t[k].0)
    ensures t[k].0 == RouteDelete(dst) || t[k].0 == RouteAdd(dst, name)
  {
    assert k == looks || k == looks + 1;
  }

  // Whose traffic is seen

  predicate Deletes(replies: seq<Reply>, name: string, dst: string, wait: int) {
    exists k :: 0 <= k < |Calls(replies, name, dst, wait)| && Calls(replies, name, dst, wait)[k].0.RouteDelete?
  }

  /** With a positive wait the route is deleted exactly if another utun holds it and two samples of that utun agree. */
  lemma {:induction false} SamplesDecide(replies: seq<Reply>, name: string, dst: string, wait: int)
    requires wait > 0
    ensures var cur := RouteIface(Nth(replies, 0));
            Deletes(replies, name, dst, wait) <==>
            Replaceable(cur, name) && CountIn(Nth(replies, 1), cur.value).Some? && CountIn(Nth(replies, 1), cur.value) == CountIn(Nth(replies, 2), cur.value)
  {
    CallsAre(replies, name, dst, wait);
    DeletesOnlyIdle(replies, name, dst, wait);
    var t, o := Calls(replies, name, dst, wait), Result(replies, name, dst, wait);
    LookedChangesNothing(replies, dst, 2);
    if TakenAfter(t, replies, name, dst, 2, o) {
      TakenShape(t, replies, name, dst, 2, o);
      assert t[3].0.RouteDelete?;
    }
  }

  /** Twice in a row netstat prints the interface's counters, in whatever surroundings. */
  ghost predicate Sampled(replies: seq<Reply>, cur: string, before: Counters, after: Counters) {
    && Nth(replies, 1).Output? && Prints(Nth(replies, 1).text, cur, before)
    && Nth(replies, 2).Output? && Prints(Nth(replies, 2).text, cur, after)
  }

  /**
   With a positive wait the route is taken exactly when the other interface's input errors, output
   packets, output errors and output bytes stood still. What it received does not matter.
   */
  lemma {:induction false} TakenIffOutputFrozen(replies: seq<Reply>, name: string, dst: string, wait: int,
                                                cur: string, before: Counters, after: Counters)
    requires wait > 0 && RouteIface(Nth(replies, 0)) == Some(cur) && Replaceable(Some(cur), name)
    requires Sampled(replies, cur, before, after) && Grew(before, after)
    ensures Deletes(replies, name, dst, wait) <==> OutputFrozen(before, after)
  {
    TableIsCounted(Nth(replies, 1).text, cur, before);
    TableIsCounted(Nth(replies, 2).text, cur, after);
    EqualSumsMeanFrozen(before, after);
    SamplesDecide(replies, name, dst, wait);
  }

  /** A utun that only receives loses its route: its packets and bytes are not among the fields that are read. */
  lemma {:induction false} ReceiverLosesItsRoute(replies: seq<Reply>, name: string, dst: string, wait: int,
                                                 cur: string, c: Counters, packets: nat, bytes: nat)
    requires wait > 0 && RouteIface(Nth(replies, 0)) == Some(cur) && Replaceable(Some(cur), name)
    requires Sampled(replies, cur, c, c.(ipkts := c.ipkts + packets, ibytes := c.ibytes + bytes))
    ensures Deletes(replies, name, dst, wait)
  {
    TakenIffOutputFrozen(replies, name, dst, wait, cur, c, c.(ipkts := c.ipkts + packets, ibytes := c.ibytes + bytes));
  }

  // Such a call

  /** The answer to `route -n get`: the line that names the interface is not the first one. */
  function RouteAnswer(): seq<string> {
    ["   route to: 192.168.100.1", "destination: 192.168.100.1", "  interface: utun4", "      flags: <UP,HOST>"]
  }

  function Header(): seq<string> {
    ["Name", "Mtu", "Network", "Address", "Ipkts", "Ierrs", "Ibytes", "Opkts", "Oerrs", "Obytes", "Coll"]
  }

  function OtherRow(): seq<string> {
    ["en0", "1500", "<Link#6>", "a4:83:e7:00:00:01", "999", "0", "9999", "888", "0", "8888", "0"]
  }

  /** An address row of utun4, with placeholders. */
  function AddressRow(): seq<string> {
    ["utun4", "1500", "192.168.2", "192.168.2.243", "10", "-", "8000", "3", "-", "240", "-"]
  }

  /** What netstat prints when its row for the link utun4 ends in these words. */
  function NetstatAnswer(seven: seq<string>): string {
    Unlines([Joined(Header()), Joined(OtherRow()), Joined(AddressRow()), Joined(["utun4", "1500", "<Link#20>"] + seven)])
  }

  const QUIET := Counters(10, 0, 8000, 3, 0, 240, 0)

  const BUSY := Counters(110, 0, 148000, 3, 0, 240, 0)

  lemma {:induction false} NotKey(s: string)
    requires |s| <= 5 || s[5] != 'f'
    ensures !(KEY <= s)
  {
  }

  lemma {:induction false} NoKey(s: string)
    requires 'f' !in s
    ensures IndexOf(s, KEY) > |s|
    decreases |s|
  {
    NotKey(s);
    if s != "" { NoKey(s[1..]); }
  }

  lemma {:induction false} KeyBehind(front: string, rest: string)
    requires 'f' !in front
    ensures IndexOf(front + KEY + rest, KEY) == |front|
    decreases |front|
  {
    var s := front + KEY + rest;
    if front == "" {
      assert KEY <= s;
    } else {
      assert s[5] == if |front| > 5 then front[5] else KEY[5 - |front|];
      NotKey(s);
      assert s[1..] == front[1..] + KEY + rest;
      KeyBehind(front[1..], rest);
    }
  }

  lemma {:induction false} InterfaceAt(lines: seq<string>, k: nat, front: string, iface: string)
    requires k < |lines| && lines[k] == front + KEY + (" " + iface) && 'f' !in front && IsWord(iface)
    requires forall j :: 0 <= j < k ==> 'f' !in lines[j]
    ensures InterfaceLine(lines) == Some(iface)
    decreases k
  {
    if k > 0 {
      NoKey(lines[0]);
      InterfaceAt(lines[1..], k - 1, front, iface);
    } else {
      KeyBehind(front, " " + iface);
      assert lines[0][|front| + |KEY|..] == " " + iface && (" " + iface)[1..] == iface;
      assert TrimLeft(" " + iface) == TrimLeft(iface) == iface && TrimRight(iface) == iface;
    }
  }

  lemma {:induction false} RouteAnswerShape()
    ensures var a := RouteAnswer();
            |a| == 4 && '\n' !in a[0] && '\n' !in a[1] && '\n' !in a[3] && 'f' !in a[0] && 'f' !in a[1]
  {
  }

  lemma {:induction false} RouteAnswerLine()
    ensures RouteAnswer()[2] == "  " + KEY + (" " + "utun4") && '\n' !in RouteAnswer()[2]
  {
  }

  lemma {:induction false} AnswerNamesUtun4()
    ensures RouteIface(Output(Unlines(RouteAnswer()))) == Some("utun4")
  {
    hide Unlines, Lines, InterfaceLine, RouteAnswer;
    RouteAnswerShape();
    RouteAnswerLine();
    LinesOfUnlines(RouteAnswer());
    InterfaceAt(RouteAnswer() + [""], 2, "  ", "utun4");
  }

  lemma {:induction false} HeaderIsSkipped()
    ensures Skipped(Joined(Header()), "utun4") && '\n' !in Joined(Header())
  {
    hide Skipped, Joined;
    JoinedIsSkipped(Header(), "utun4");
  }

  lemma {:induction false} OtherRowIsSkipped()
    ensures Skipped(Joined(OtherRow()), "utun4") && '\n' !in Joined(OtherRow())
  {
    hide Skipped, Joined;
    JoinedIsSkipped(OtherRow(), "utun4");
  }

  lemma {:induction false} AddressRowIsSkipped()
    ensures Skipped(Joined(AddressRow()), "utun4") && '\n' !in Joined(AddressRow())
  {
    hide Skipped, Joined;
    JoinedIsSkipped(AddressRow(), "utun4");
  }

  lemma {:induction false} AnswerPrints(c: Counters)
    requires Fits(c)
    ensures Prints(NetstatAnswer(Seven(c)), "utun4", c)
  {
    hide Unlines, Joined, Seven, Prints, Skipped, Header, OtherRow, AddressRow;
    var middle := ["1500", "<Link#20>"];
    var skipped := [Joined(Header()), Joined(OtherRow()), Joined(AddressRow())];
    HeaderIsSkipped();
    OtherRowIsSkipped();
    AddressRowIsSkipped();
    RowIsPrinted(skipped, "utun4", middle, c, []);
    assert skipped + [Joined(["utun4"] + middle + Seven(c))] + [] ==
           [Joined(Header()), Joined(OtherRow()), Joined(AddressRow()), Joined(["utun4", "1500", "<Link#20>"] + Seven(c))] by {
      assert ["utun4"] + middle == ["utun4", "1500", "<Link#20>"];
    }
  }

  lemma {:induction false} Decimals()
    ensures Decimal(10) == "10" && Decimal(110) == "110" && Decimal(240) == "240" && Decimal(8000) == "8000" && Decimal(148000) == "148000"
  {
    hide Decimal;
    OneDigit(1, "1");
    OneMoreDigit(1, 0, "1");
    assert Decimal(10) == "10";
    OneMoreDigit(1, 1, "1");
    OneMoreDigit(11, 0, "11");
    assert Decimal(110) == "110";
    OneDigit(2, "2");
    OneMoreDigit(2, 4, "2");
    OneMoreDigit(24, 0, "24");
    assert Decimal(240) == "240";
    OneDigit(8, "8");
    OneMoreDigit(8, 0, "8");
    OneMoreDigit(80, 0, "80");
    OneMoreDigit(800, 0, "800");
    assert Decimal(8000) == "8000";
    OneMoreDigit(1, 4, "1");
    OneMoreDigit(14, 8, "14");
    OneMoreDigit(148, 0, "148");
    OneMoreDigit(1480, 0, "1480");
    OneMoreDigit(14800, 0, "14800");
    assert Decimal(148000) == "148000";
  }

  lemma {:induction false} SevenWords()
    ensures Seven(QUIET) == ["10", "0", "8000", "3", "0", "240", "0"]
    ensures Seven(BUSY) == ["110", "0", "148000", "3", "0", "240", "0"]
  {
    hide Decimal;
    Decimals();
    OneDigit(0, "0");
    OneDigit(3, "3");
  }

  /** utun4 receives a hundred packets during the wait, sends nothing, and loses the route to the dish. */
  lemma {:induction false} BusyReceiverLosesItsRoute()
    ensures Deletes([Output(Unlines(RouteAnswer())),
                     Output(NetstatAnswer(["10", "0", "8000", "3", "0", "240", "0"])),
                     Output(NetstatAnswer(["110", "0", "148000", "3", "0", "240", "0"]))],
                    "utun9", "192.168.100.1", 3000)
  {
    hide Unlines, NetstatAnswer, Seven, Prints, Deletes, RouteIface, RouteAnswer;
    AnswerNamesUtun4();
    SevenWords();
    AnswerPrints(QUIET);
    AnswerPrints(BUSY);
    var replies := [Output(Unlines(RouteAnswer())), Output(NetstatAnswer(Seven(QUIET))), Output(NetstatAnswer(Seven(BUSY)))];
    ReceiverLosesItsRoute(replies, "utun9", "192.168.100.1", 3000, "utun4", QUIET, 100, 140000);
  }

  /** Without a wait one readable sample is enough, whatever the traffic. AddStarlinkRoute passes no wait. */
  lemma {:induction false} NoWaitTakesLiveRoutes(replies: seq<Reply>, name: string, dst: string, cur: string)
    ensures RouteIface(Nth(replies, 0)) == Some(cur) && Replaceable(Some(cur), name) && CountIn(Nth(replies, 1), cur).Some? ==> Deletes(replies, name, dst, 0)
  {
    CallsAre(replies, name, dst, 0);
    var t := Calls(replies, name, dst, 0);
    LookedChangesNothing(replies, dst, 1);
    if RouteIface(Nth(replies, 0)) == Some(cur) && Replaceable(Some(cur), name) && CountIn(Nth(replies, 1), cur).Some? {
      assert t[2].0 == RouteDelete(dst);
    }
  }
}

/** tun_darwin.go: an interface's counters, read from the table netstat prints. */
module NetstatText {
  import opened Common
  import opened Text

  // Decimal numbers

  function Decimal(v: nat): (s: string)
    ensures IsWord(s)
    decreases v
  {
    if v < 10 then [DigitChar(v)] else Decimal(v / 10) + [DigitChar(v % 10)]
  }

  function DecimalValue(s: string): Option<nat>
    decreases |s|
  {
    if s == "" then Some(0)
    else
      var high, low := DecimalValue(s[..|s| - 1]), DigitValue(s[|s| - 1]);
      if high.Some? && low.Some? && low.value < 10 then Some(high.value * 10 + low.value) else None
  }

  /** strconv.ParseUint(s, 10, 64) */
  function ParseUint64(s: string): Option<nat> {
    var v := DecimalValue(s);
    if s == "" || v == None || v.value >= TWO_64 then None else v
  }

  lemma {:induction false} DecimalRoundTrip(v: nat)
    ensures DecimalValue(Decimal(v)) == Some(v)
    decreases v
  {
    var s := Decimal(v);
    if v < 10 {
      assert s[..0] == "";
    } else {
      DecimalRoundTrip(v / 10);
      assert s[..|s| - 1] == Decimal(v / 10);
    }
  }

  // netstat -ibn

  datatype Count = Count(inbound: nat, outbound: nat)

  /** The four fields the code adds up, counted from the right end of the row. */
  function RowCount(f: seq<string>): Option<Count>
    requires |f| >= 7
  {
    var n := |f|;
    var a, b, c, d := ParseUint64(f[n - 6]), ParseUint64(f[n - 4]), ParseUint64(f[n - 3]), ParseUint64(f[n - 2]);
    if a == None || b == None || c == None || d == None then None
    else Some(Count((a.value + b.value) % TWO_64, (c.value + d.value) % TWO_64))
  }

  /** The count a line gives for the interface, if it is one of its rows and its numbers can be read. */
  function LineCount(line: string, iface: string): Option<Count> {
    var f := Fields(line);
    if |f| == 0 || f[0] != iface || |f| < 7 then None else RowCount(f)
  }

  function FirstCount(lines: seq<string>, iface: string): Option<Count>
    decreases |lines|
  {
    if lines == [] then None
    else if LineCount(lines[0], iface).Some? then LineCount(lines[0], iface)
    else FirstCount(lines[1..], iface)
  }

  /** utunCounters, once netstat has answered. */
  method UtunCounters(output: string, iface: string) returns (count: Option<Count>)
    ensures count == FirstCount(Lines(output), iface)
  {
    var lines := Lines(output);
    var i := 0;
    while i < |lines|
      invariant i <= |lines| && FirstCount(lines[i..], iface) == FirstCount(lines, iface)
    {
      var f := Fields(lines[i]);
      assert lines[i..][1..] == lines[i + 1..];
      i := i + 1;
      if |f| == 0 || f[0] != iface || |f| < 7 { continue; }
      var n := |f|;
      var ipkts, ibytes := ParseUint64(f[n - 6]), ParseUint64(f[n - 4]);
      var opkts, obytes := ParseUint64(f[n - 3]), ParseUint64(f[n - 2]);
      if ipkts == None || ibytes == None || opkts == None || obytes == None { continue; }
      return Some(Count((ipkts.value + ibytes.value) % TWO_64, (opkts.value + obytes.value) % TWO_64));
    }
    count := None;
  }

  // What the numbers are: netstat ends a row with Ipkts Ierrs Ibytes Opkts Oerrs Obytes Coll

  datatype Counters = Counters(ipkts: nat, ierrs: nat, ibytes: nat, opkts: nat, oerrs: nat, obytes: nat, coll: nat)

  predicate Fits(c: Counters) {
    c.ipkts < TWO_64 && c.ierrs < TWO_64 && c.ibytes < TWO_64 && c.opkts < TWO_64 && c.oerrs < TWO_64 && c.obytes < TWO_64
  }

  function Seven(c: Counters): seq<string> {
    [Decimal(c.ipkts), Decimal(c.ierrs), Decimal(c.ibytes), Decimal(c.opkts), Decimal(c.oerrs), Decimal(c.obytes), Decimal(c.coll)]
  }

  /** A line with the counters of `iface`, whatever columns stand before them and however it is spaced. */
  predicate IsRow(line: string, iface: string, middle: seq<string>, c: Counters) {
    Fits(c) && Fields(line) == [iface] + middle + Seven(c)
  }

  /** A decimal number of at most 64 bits. */
  predicate Number(s: string) {
    s != "" && (forall i :: 0 <= i < |s| ==> '0' <= s[i] <= '9') && (DecimalValue(s).Some? ==> DecimalValue(s).value < TWO_64)
  }

  /** The header, a line of another interface, a short one, or one with a placeholder in a field that is read. */
  predicate Skipped(line: string, iface: string) {
    var f := Fields(line);
    var n := |f|;
    n < 7 || f[0] != iface || !Number(f[n - 6]) || !Number(f[n - 4]) || !Number(f[n - 3]) || !Number(f[n - 2])
  }

  predicate PrintsAt(text: string, iface: string, c: Counters, k: nat, middle: seq<string>) {
    && k < |Lines(text)| && IsRow(Lines(text)[k], iface, middle, c)
    && forall j :: 0 <= j < k ==> Skipped(Lines(text)[j], iface)
  }

  /** What netstat prints: somewhere a row with these counters, and before it only lines that are skipped. */
  ghost predicate Prints(text: string, iface: string, c: Counters) {
    exists k: nat, middle: seq<string> :: PrintsAt(text, iface, c, k, middle)
  }

  /** The sums the code calls inbound and outbound are input errors plus output packets, and output errors plus bytes. */
  function Counted(c: Counters): Count {
    Count((c.ierrs + c.opkts) % TWO_64, (c.oerrs + c.obytes) % TWO_64)
  }

  lemma CountIsInTheTail(front: seq<string>, tail: seq<string>)
    requires |tail| == 7
    ensures RowCount(front + tail) == RowCount(tail)
  {
    var f := front + tail;
    var n := |f|;
    assert f[n - 6] == tail[1] && f[n - 4] == tail[3] && f[n - 3] == tail[4] && f[n - 2] == tail[5];
  }

  lemma SevenCounted(c: Counters)
    requires Fits(c)
    ensures RowCount(Seven(c)) == Some(Counted(c))
  {
    DecimalRoundTrip(c.ierrs);
    DecimalRoundTrip(c.opkts);
    DecimalRoundTrip(c.oerrs);
    DecimalRoundTrip(c.obytes);
  }

  lemma {:induction false} DecimalOfDigits(s: string)
    ensures DecimalValue(s).Some? <==> forall i :: 0 <= i < |s| ==> '0' <= s[i] <= '9'
    decreases |s|
  {
    if s != "" { DecimalOfDigits(s[..|s| - 1]); }
  }

  lemma {:induction false} NumberIff(s: string)
    ensures Number(s) <==> ParseUint64(s).Some?
  {
    DecimalOfDigits(s);
  }

  /** The skipped lines are those that give no count. */
  lemma {:induction false} SkippedIff(line: string, iface: string)
    ensures Skipped(line, iface) <==> LineCount(line, iface) == None
  {
    var f := Fields(line);
    var n := |f|;
    if n >= 7 {
      NumberIff(f[n - 6]);
      NumberIff(f[n - 4]);
      NumberIff(f[n - 3]);
      NumberIff(f[n - 2]);
    }
  }

  lemma {:induction false} RowIsCounted(line: string, iface: string, middle: seq<string>, c: Counters)
    requires IsRow(line, iface, middle, c)
    ensures LineCount(line, iface) == Some(Counted(c))
  {
    CountIsInTheTail([iface] + middle, Seven(c));
    SevenCounted(c);
  }

  lemma {:induction false} FirstCountAt(lines: seq<string>, iface: string, k: nat)
    requires k < |lines| && LineCount(lines[k], iface).Some?
    requires forall j :: 0 <= j < k ==> Skipped(lines[j], iface)
    ensures FirstCount(lines, iface) == LineCount(lines[k], iface)
    decreases k
  {
    if k > 0 {
      SkippedIff(lines[0], iface);
      FirstCountAt(lines[1..], iface, k - 1);
    }
  }

  /** On any output with a row of the interface the fields summed are the ones named. */
  lemma {:induction false} TableIsCounted(text: string, iface: string, c: Counters)
    requires Prints(text, iface, c)
    ensures FirstCount(Lines(text), iface) == Some(Counted(c))
  {
    var k: nat, middle: seq<string> :| PrintsAt(text, iface, c, k, middle);
    RowIsCounted(Lines(text)[k], iface, middle, c);
    FirstCountAt(Lines(text), iface, k);
  }

  // Lines put together

  /** The words of a line with a space between them. */
  function Joined(words: seq<string>): string
    decreases |words|
  {
    if words == [] then "" else if |words| == 1 then words[0] else words[0] + " " + Joined(words[1..])
  }

  function Unlines(lines: seq<string>): string
    decreases |lines|
  {
    if lines == [] then "" else lines[0] + "\n" + Unlines(lines[1..])
  }

  lemma {:induction false} FieldsOfJoined(words: seq<string>)
    requires forall i :: 0 <= i < |words| ==> IsWord(words[i])
    ensures Fields(Joined(words)) == words && '\n' !in Joined(words)
    decreases |words|
  {
    assert IsSpace('\n');
    if |words| == 1 {
      OneField(words[0]);
    } else if words != [] {
      var w, rest := words[0], Joined(words[1..]);
      FieldsOfJoined(words[1..]);
      var s := Joined(words);
      assert s == w + (" " + rest);
      WordLengthOf(w, " " + rest);
      assert s[..|w|] == w && s[|w|..] == " " + rest && (" " + rest)[1..] == rest;
      assert Fields(" " + rest) == Fields(rest);
    }
  }

  lemma {:induction false} LinesOfUnlines(lines: seq<string>)
    requires forall i :: 0 <= i < |lines| ==> '\n' !in lines[i]
    ensures Lines(Unlines(lines)) == lines + [""]
    decreases |lines|
  {
    if lines != [] {
      LinesFirst(lines[0], Unlines(lines[1..]));
      LinesOfUnlines(lines[1..]);
    }
  }

  /** A row behind lines that are skipped, and whatever follows. */
  lemma {:induction false} RowIsPrinted(skipped: seq<string>, iface: string, middle: seq<string>, c: Counters, after: seq<string>)
    requires IsWord(iface) && (forall i :: 0 <= i < |middle| ==> IsWord(middle[i])) && Fits(c)
    requires forall i :: 0 <= i < |skipped| ==> '\n' !in skipped[i] && Skipped(skipped[i], iface)
    requires forall i :: 0 <= i < |after| ==> '\n' !in after[i]
    ensures Prints(Unlines(skipped + [Joined([iface] + middle + Seven(c))] + after), iface, c)
  {
    var words := [iface] + middle + Seven(c);
    var lines := skipped + [Joined(words)] + after;
    var seven := Seven(c);
    forall i | 0 <= i < |words| ensures IsWord(words[i]) {
      assert i > |middle| ==> words[i] == seven[i - 1 - |middle|];
    }
    FieldsOfJoined(words);
    LinesOfUnlines(lines);
    assert PrintsAt(Unlines(lines), iface, c, |skipped|, middle);
  }

  lemma {:induction false} JoinedIsSkipped(words: seq<string>, iface: string)
    requires |words| >= 7 && forall i :: 0 <= i < |words| ==> IsWord(words[i])
    requires words[0] != iface || !Number(words[|words| - 6])
    ensures Skipped(Joined(words), iface) && '\n' !in Joined(words)
  {
    FieldsOfJoined(words);
  }

  lemma {:induction false} OneDigit(d: nat, text: string)
    requires d < 10 && text == [DigitChar(d)]
    ensures Decimal(d) == text
  {
  }

  lemma {:induction false} OneMoreDigit(q: nat, d: nat, text: string)
    requires q > 0 && d < 10 && Decimal(q) == text
    ensures Decimal(10 * q + d) == text + [DigitChar(d)]
  {
    assert (10 * q + d) / 10 == q && (10 * q + d) % 10 == d;
  }

  /** The counters only go up, and by less than a full wrap of the sums. */
  predicate Grew(before: Counters, after: Counters) {
    && before.ierrs <= after.ierrs && before.opkts <= after.opkts && before.oerrs <= after.oerrs && before.obytes <= after.obytes
    && after.ierrs - before.ierrs + after.opkts - before.opkts < TWO_64
    && after.oerrs - before.oerrs + after.obytes - before.obytes < TWO_64
  }

  predicate OutputFrozen(before: Counters, after: Counters) {
    before.ierrs == after.ierrs && before.opkts == after.opkts && before.oerrs == after.oerrs && before.obytes == after.obytes
  }

  lemma EqualSumsMeanFrozen(before: Counters, after: Counters)
    requires Grew(before, after)
    ensures Counted(before) == Counted(after) <==> OutputFrozen(before, after)
  {
    SameResidue(before.ierrs + before.opkts, after.ierrs + after.opkts);
    SameResidue(before.oerrs + before.obytes, after.oerrs + after.obytes);
  }

  lemma SameResidue(a: nat, b: nat)
    requires a <= b < a + TWO_64
    ensures a % TWO_64 == b % TWO_64 <==> a == b
  {
  }
}
