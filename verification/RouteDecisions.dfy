/** What EnsureHostRoute decides and issues for any replies, branch by branch, and which interface a reply names. */
module RouteDecisions {
  import opened Common
  import opened Text
  import opened NetstatText
  import opened HostRoutes

  // The cases, read off the replies

  /** Nothing stands in the way: the look-up fails, gives no interface line, or names nothing. */
  predicate Free(cur: Option<string>, name: string) { cur != Some(name) && (cur == None || cur == Some("")) }

  /** The route is this interface's already. */
  predicate Own(cur: Option<string>, name: string) { cur == Some(name) }

  /** An interface of the host's holds the route. */
  predicate Foreign(cur: Option<string>, name: string) { cur.Some? && cur.value != name && cur.value != "" && !("utun" <= cur.value) }

  /** Another utun holds it. */
  predicate Theirs(cur: Option<string>, name: string) { cur.Some? && cur.value != name && cur.value != "" && "utun" <= cur.value }

  /** The route is taken over: one sample can be read, and with a wait a second one that is the same. */
  predicate Taken(replies: seq<Reply>, name: string, wait: int) {
    var cur := RouteIface(Nth(replies, 0));
    && Theirs(cur, name) && CountIn(Nth(replies, 1), cur.value).Some?
    && (wait > 0 ==> CountIn(Nth(replies, 2), cur.value) == CountIn(Nth(replies, 1), cur.value))
  }

  /** A sample that is needed cannot be read. */
  predicate Unread(replies: seq<Reply>, name: string, wait: int) {
    var cur := RouteIface(Nth(replies, 0));
    Theirs(cur, name) && (CountIn(Nth(replies, 1), cur.value) == None || (wait > 0 && CountIn(Nth(replies, 2), cur.value) == None))
  }

  /** Both samples can be read and they differ. */
  predicate Busy(replies: seq<Reply>, name: string, wait: int) {
    var cur := RouteIface(Nth(replies, 0));
    && Theirs(cur, name) && wait > 0 && CountIn(Nth(replies, 1), cur.value).Some? && CountIn(Nth(replies, 2), cur.value).Some?
    && CountIn(Nth(replies, 1), cur.value) != CountIn(Nth(replies, 2), cur.value)
  }

  /** How many samples come before a delete. */
  function Samples(wait: int): nat { if wait > 0 then 2 else 1 }

  // The decisions

  lemma {:induction false} FreeDecides(replies: seq<Reply>, name: string, dst: string, wait: int)
    requires Free(RouteIface(Nth(replies, 0)), name)
    ensures Calls(replies, name, dst, wait) == [(RouteGet(dst), Nth(replies, 0)), (RouteAdd(dst, name), Nth(replies, 1))]
    ensures Result(replies, name, dst, wait) == if Nth(replies, 1).Output? then Done else AddFailed
  {
    hide RouteIface;
    var s := Shell([], replies);
    assert Drop(replies, 0) == replies;
    Next(replies, 0, s, RouteGet(dst));
    Next(replies, 1, After(s, RouteGet(dst)), RouteAdd(dst, name));
  }

  lemma {:induction false} OwnOrForeignDecides(replies: seq<Reply>, name: string, dst: string, wait: int)
    requires Own(RouteIface(Nth(replies, 0)), name) || Foreign(RouteIface(Nth(replies, 0)), name)
    ensures Calls(replies, name, dst, wait) == [(RouteGet(dst), Nth(replies, 0))]
    ensures Result(replies, name, dst, wait) == if Own(RouteIface(Nth(replies, 0)), name) then Done else NotOurs
  {
    hide RouteIface;
    assert Drop(replies, 0) == replies;
    Next(replies, 0, Shell([], replies), RouteGet(dst));
  }

  /** A look-up and `n` samples. */
  predicate Looks(t: seq<(Command, Reply)>, replies: seq<Reply>, dst: string, n: nat) {
    && |t| == n + 1 && t[0] == (RouteGet(dst), Nth(replies, 0))
    && forall k :: 1 <= k <= n ==> t[k] == (Netstat, Nth(replies, k))
  }

  lemma {:induction false} LookedLooks(replies: seq<Reply>, dst: string, n: nat)
    requires n <= 2
    ensures Looks(Looked(replies, dst, n), replies, dst, n)
  {
    if n > 0 { LookedLooks(replies, dst, n - 1); }
  }

  /** After the samples the route is deleted, and if that works, added. */
  predicate TakesOver(t: seq<(Command, Reply)>, o: Outcome, replies: seq<Reply>, name: string, dst: string, n: nat) {
    && |t| >= n + 2 && Looks(t[..n + 1], replies, dst, n) && t[n + 1] == (RouteDelete(dst), Nth(replies, n + 1))
    && if Nth(replies, n + 1).Failed? then |t| == n + 2 && o == DeleteFailed
       else |t| == n + 3 && t[n + 2] == (RouteAdd(dst, name), Nth(replies, n + 2)) && o == if Nth(replies, n + 2).Output? then Done else AddFailed
  }

  lemma {:induction false} TakenTakesOver(t: seq<(Command, Reply)>, o: Outcome, replies: seq<Reply>, name: string, dst: string, n: nat)
    requires n <= 2 && TakenAfter(t, replies, name, dst, n, o)
    ensures TakesOver(t, o, replies, name, dst, n)
  {
    LookedLooks(replies, dst, n);
    assert t[..n + 1] == Looked(replies, dst, n);
  }

  lemma {:induction false} TheirsDecides(replies: seq<Reply>, name: string, dst: string, wait: int)
    requires Theirs(RouteIface(Nth(replies, 0)), name)
    ensures var t, o := Calls(replies, name, dst, wait), Result(replies, name, dst, wait);
            && (Unread(replies, name, wait) ==> o == Unverified && (Looks(t, replies, dst, 1) || Looks(t, replies, dst, 2)))
            && (Busy(replies, name, wait) ==> o == Live && Looks(t, replies, dst, 2))
            && (Taken(replies, name, wait) ==> TakesOver(t, o, replies, name, dst, Samples(wait)))
  {
    hide Calls, Result, RouteIface, CountIn, Looked, TakenAfter, TakesOver, Looks;
    var t, o := Calls(replies, name, dst, wait), Result(replies, name, dst, wait);
    CallsAre(replies, name, dst, wait);
    LookedLooks(replies, dst, 1);
    LookedLooks(replies, dst, 2);
    if Taken(replies, name, wait) { TakenTakesOver(t, o, replies, name, dst, Samples(wait)); }
  }

  /** Every call falls under exactly one of the cases. */
  lemma {:induction false} CasesAreAll(replies: seq<Reply>, name: string, wait: int)
    ensures var cur := RouteIface(Nth(replies, 0));
            && (Own(cur, name) || Free(cur, name) || Foreign(cur, name) || Theirs(cur, name))
            && (Theirs(cur, name) ==> Unread(replies, name, wait) || Busy(replies, name, wait) || Taken(replies, name, wait))
  {
  }

  /**
   What a call returns, for any replies: each outcome exactly in its case. An interface that is not a utun is the one
   thing that is refused unseen.
   */
  lemma {:induction false} OutcomeIff(replies: seq<Reply>, name: string, dst: string, wait: int)
    ensures var o, cur, n := Result(replies, name, dst, wait), RouteIface(Nth(replies, 0)), Samples(wait);
            && (o == NotOurs <==> Foreign(cur, name))
            && (o == Unverified <==> Unread(replies, name, wait))
            && (o == Live <==> Busy(replies, name, wait))
            && (o == DeleteFailed <==> Taken(replies, name, wait) && Nth(replies, n + 1).Failed?)
            && (o == AddFailed <==>
                || (Free(cur, name) && Nth(replies, 1).Failed?)
                || (Taken(replies, name, wait) && Nth(replies, n + 1).Output? && Nth(replies, n + 2).Failed?))
            && (o == Done <==>
                || Own(cur, name)
                || (Free(cur, name) && Nth(replies, 1).Output?)
                || (Taken(replies, name, wait) && Nth(replies, n + 1).Output? && Nth(replies, n + 2).Output?))
  {
    hide Calls, Result, RouteIface, CountIn, Looks;
    Decides(replies, name, dst, wait);
  }

  lemma {:induction false} Decides(replies: seq<Reply>, name: string, dst: string, wait: int)
    ensures var t, o, cur := Calls(replies, name, dst, wait), Result(replies, name, dst, wait), RouteIface(Nth(replies, 0));
            && (Own(cur, name) ==> o == Done && t == [(RouteGet(dst), Nth(replies, 0))])
            && (Foreign(cur, name) ==> o == NotOurs && t == [(RouteGet(dst), Nth(replies, 0))])
            && (Free(cur, name) ==>
                && t == [(RouteGet(dst), Nth(replies, 0)), (RouteAdd(dst, name), Nth(replies, 1))]
                && o == if Nth(replies, 1).Output? then Done else AddFailed)
            && (Unread(replies, name, wait) ==> o == Unverified && (Looks(t, replies, dst, 1) || Looks(t, replies, dst, 2)))
            && (Busy(replies, name, wait) ==> o == Live && Looks(t, replies, dst, 2))
            && (Taken(replies, name, wait) ==> TakesOver(t, o, replies, name, dst, Samples(wait)))
  {
    hide Calls, Result, RouteIface, CountIn, Looks, TakesOver;
    var cur := RouteIface(Nth(replies, 0));
    CasesAreAll(replies, name, wait);
    if Free(cur, name) { FreeDecides(replies, name, dst, wait); }
    else if Theirs(cur, name) { TheirsDecides(replies, name, dst, wait); }
    else { OwnOrForeignDecides(replies, name, dst, wait); }
  }

  predicate Quiet(t: seq<(Command, Reply)>) { forall k :: 0 <= k < |t| ==> t[k].0.RouteGet? || t[k].0.Netstat? }

  predicate LooksThenAdds(t: seq<(Command, Reply)>, name: string, dst: string) {
    |t| == 2 && t[0].0 == RouteGet(dst) && t[1].0 == RouteAdd(dst, name)
  }

  /** The table is left alone exactly when the route is ours already or the call refuses it. */
  lemma {:induction false} QuietIff(replies: seq<Reply>, name: string, dst: string, wait: int)
    ensures var cur := RouteIface(Nth(replies, 0));
            Quiet(Calls(replies, name, dst, wait)) <==>
              Own(cur, name) || Foreign(cur, name) || Unread(replies, name, wait) || Busy(replies, name, wait)
  {
    hide Calls, Result, RouteIface, CountIn;
    Decides(replies, name, dst, wait);
    CasesAreAll(replies, name, wait);
    var t := Calls(replies, name, dst, wait);
    if Taken(replies, name, wait) { assert t[Samples(wait) + 1].0.RouteDelete?; }
    else if Free(RouteIface(Nth(replies, 0)), name) { assert t[1].0.RouteAdd?; }
  }

  /** A call is one look-up and one add exactly when nothing stands in the way. */
  lemma {:induction false} AddsAtOnceIff(replies: seq<Reply>, name: string, dst: string, wait: int)
    ensures LooksThenAdds(Calls(replies, name, dst, wait), name, dst) <==> Free(RouteIface(Nth(replies, 0)), name)
  {
    hide Calls, Result, RouteIface, CountIn;
    Decides(replies, name, dst, wait);
    CasesAreAll(replies, name, wait);
  }

  /** The route is deleted exactly when it is taken over, as the command after the samples; with success it is then added. */
  lemma {:induction false} TakesOverIff(replies: seq<Reply>, name: string, dst: string, wait: int)
    ensures TakesOver(Calls(replies, name, dst, wait), Result(replies, name, dst, wait), replies, name, dst, Samples(wait)) <==> Taken(replies, name, wait)
  {
    hide Calls, Result, RouteIface, CountIn;
    Decides(replies, name, dst, wait);
    CasesAreAll(replies, name, wait);
  }

  // Which interface a reply names

  /** The key stands at `i` in the line, and nowhere before. */
  predicate KeyAt(line: string, i: nat) {
    i <= |line| && KEY <= line[i..] && forall j :: 0 <= j < i ==> !(KEY <= line[j..])
  }

  predicate HasKey(line: string) { exists i :: 0 <= i <= |line| && KEY <= line[i..] }

  /** Line `k` is the first to hold the key; what stands behind it there, trimmed, is the interface. */
  predicate NamesAt(lines: seq<string>, k: nat, i: nat, iface: string) {
    && k < |lines| && (forall j :: 0 <= j < k ==> !HasKey(lines[j])) && KeyAt(lines[k], i)
    && TrimSpace(lines[k][i + |KEY|..]) == iface
  }

  ghost predicate Names(lines: seq<string>, iface: string) { exists k: nat, i: nat :: NamesAt(lines, k, i, iface) }

  predicate Nameless(lines: seq<string>) { forall k :: 0 <= k < |lines| ==> !HasKey(lines[k]) }

  lemma {:induction false} IndexOfIsFirst(s: string)
    ensures IndexOf(s, KEY) <= |s| ==> KeyAt(s, IndexOf(s, KEY))
    ensures IndexOf(s, KEY) > |s| ==> !HasKey(s)
    decreases |s|
  {
    if !(KEY <= s) && s != "" {
      IndexOfIsFirst(s[1..]);
      forall j | 1 <= j <= |s| ensures s[j..] == s[1..][j - 1..] {
      }
    }
  }

  lemma {:induction false} InterfaceLineNames(lines: seq<string>)
    ensures match InterfaceLine(lines)
            case None => Nameless(lines)
            case Some(iface) => Names(lines, iface)
    decreases |lines|
  {
    hide HasKey, KeyAt;
    if lines != [] {
      IndexOfIsFirst(lines[0]);
      if IndexOf(lines[0], KEY) <= |lines[0]| {
        assert NamesAt(lines, 0, IndexOf(lines[0], KEY), InterfaceLine(lines).value);
      } else {
        InterfaceLineNames(lines[1..]);
        if InterfaceLine(lines).Some? {
          var k: nat, i: nat :| NamesAt(lines[1..], k, i, InterfaceLine(lines).value);
          assert NamesAt(lines, k + 1, i, InterfaceLine(lines).value);
        }
      }
    }
  }

  lemma {:induction false} OneKey(line: string, i: nat, j: nat)
    requires KeyAt(line, i) && KeyAt(line, j)
    ensures i == j
  {
  }

  lemma {:induction false} KeyIsHeld(line: string, i: nat)
    requires KeyAt(line, i)
    ensures HasKey(line)
  {
  }

  lemma {:induction false} NamesOne(lines: seq<string>, k: nat, i: nat, iface: string, l: nat, j: nat, other: string)
    requires NamesAt(lines, k, i, iface) && NamesAt(lines, l, j, other)
    ensures iface == other
  {
    hide HasKey, KeyAt;
    KeyIsHeld(lines[k], i);
    KeyIsHeld(lines[l], j);
    OneKey(lines[k], i, j);
  }

  /**
   A reply names an interface exactly if it is an output with a line that holds "interface:": the first such line, and
   in it what follows the first such word, without the blanks around it. Otherwise it names none.
   */
  lemma {:induction false} NamedIff(text: string, iface: string)
    ensures RouteIface(Failed) == None
    ensures RouteIface(Output(text)) == Some(iface) <==> Names(Lines(text), iface)
    ensures RouteIface(Output(text)) == None <==> Nameless(Lines(text))
  {
    hide HasKey, KeyAt, Lines;
    var lines := Lines(text);
    InterfaceLineNames(lines);
    if InterfaceLine(lines).Some? {
      var l: nat, j: nat :| NamesAt(lines, l, j, InterfaceLine(lines).value);
      KeyIsHeld(lines[l], j);
      forall k: nat, i: nat | NamesAt(lines, k, i, iface) ensures iface == InterfaceLine(lines).value {
        NamesOne(lines, k, i, iface, l, j, InterfaceLine(lines).value);
      }
    } else {
      forall k: nat, i: nat ensures !NamesAt(lines, k, i, iface) {
        if NamesAt(lines, k, i, iface) { KeyIsHeld(lines[k], i); }
      }
    }
  }
}
