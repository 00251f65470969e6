/**
 The chat sample's `broadcast`: deliver a message to every session, drop the sessions whose
 socket throws, and announce each of those to the rest by calling `broadcast` again.
 */
module Broadcast {
  import opened Options

  /** A message before it is turned into JSON, which is one to one. */
  datatype Message = Chat(text: string) | Joined(name: string) | Quit(name: string)

  /**
   `sends` is how many more sends the socket takes before one throws (None: all of them).
   A session without a name has not introduced itself, and its messages are kept back.
   */
  datatype Session = Session(id: nat, name: Option<string>, sends: Option<nat>, sent: seq<Message>, blocked: seq<Message>)

  predicate Fails(s: Session) {
    s.name.Some? && s.sends == Some(0)
  }

  /** One message sent or kept back. */
  function Delivered(s: Session, message: Message): Session
    requires !Fails(s)
  {
    if s.name.Some? then
      s.(sent := s.sent + [message], sends := if s.sends.Some? then Some(s.sends.value - 1) else None)
    else
      s.(blocked := s.blocked + [message])
  }

  /** The socket takes as many messages as that. */
  predicate Outlasts(s: Session, n: nat) {
    s.name.None? || s.sends.None? || n <= s.sends.value
  }

  /** A session after a series of messages that its socket has taken. */
  function Extended(s: Session, log: seq<Message>): Session
    requires Outlasts(s, |log|)
  {
    if s.name.Some? then
      s.(sent := s.sent + log, sends := if s.sends.Some? then Some(s.sends.value - |log|) else None)
    else
      s.(blocked := s.blocked + log)
  }

  function Survivors(sessions: seq<Session>, n: nat): seq<Session> {
    if sessions == [] then []
    else
      var rest := Survivors(sessions[..|sessions| - 1], n);
      var last := sessions[|sessions| - 1];
      if Outlasts(last, n) then rest + [last] else rest
  }

  function Casualties(sessions: seq<Session>, n: nat): seq<Session> {
    if sessions == [] then []
    else
      var rest := Casualties(sessions[..|sessions| - 1], n);
      var last := sessions[|sessions| - 1];
      if Outlasts(last, n) then rest else rest + [last]
  }

  lemma {:induction false} SurvivorsOutlast(sessions: seq<Session>, n: nat)
    ensures forall i :: 0 <= i < |Survivors(sessions, n)| ==> Outlasts(Survivors(sessions, n)[i], n)
    ensures |Survivors(sessions, n)| + |Casualties(sessions, n)| == |sessions|
  {
    if sessions != [] { SurvivorsOutlast(sessions[..|sessions| - 1], n); }
  }

  function ExtendAll(sessions: seq<Session>, log: seq<Message>): (r: seq<Session>)
    requires forall i :: 0 <= i < |sessions| ==> Outlasts(sessions[i], |log|)
    ensures |r| == |sessions| && forall i :: 0 <= i < |r| ==> r[i] == Extended(sessions[i], log)
  {
    seq(|sessions|, i requires 0 <= i < |sessions| => Extended(sessions[i], log))
  }

  /** What a call that sent `log` in all leaves of the sessions: those that outlast it, each with the whole log. */
  function After(sessions: seq<Session>, log: seq<Message>): (r: seq<Session>)
    ensures |r| + |Casualties(sessions, |log|)| == |sessions|
  {
    SurvivorsOutlast(sessions, |log|);
    ExtendAll(Survivors(sessions, |log|), log)
  }

  /** The farewell due for each casualty. */
  function Farewells(gone: seq<Session>): multiset<Message> {
    if gone == [] then multiset{}
    else
      var last := gone[|gone| - 1];
      Farewells(gone[..|gone| - 1]) + if last.name.Some? then multiset{Quit(last.name.value)} else multiset{}
  }

  function Announced(sessions: seq<Session>, n: nat): multiset<Message> {
    Farewells(Casualties(sessions, n))
  }

  // ----- what becomes of each session

  /** Which of the sessions are left, in order. */
  function Places(sessions: seq<Session>, n: nat): seq<nat> {
    if sessions == [] then []
    else
      var last := |sessions| - 1;
      Places(sessions[..last], n) + if Outlasts(sessions[last], n) then [last] else []
  }

  /** A session that is left has got exactly the messages of the log: sent if it has a name, kept back if not. */
  ghost predicate Got(s: Session, r: Session, log: seq<Message>) {
    && r.id == s.id && r.name == s.name
    && (if s.name.Some? then r.sent == s.sent + log && r.blocked == s.blocked
        else r.blocked == s.blocked + log && r.sent == s.sent && r.sends == s.sends)
  }

  /** In order; gone is exactly who has a name and a socket that takes fewer messages than that. */
  lemma {:induction false} PlacesAre(sessions: seq<Session>, n: nat)
    ensures var places := Places(sessions, n);
            && (forall i :: 0 <= i < |places| ==> places[i] < |sessions|)
            && (forall i, j :: 0 <= i < j < |places| ==> places[i] < places[j])
            && (forall k: nat :: k < |sessions| ==>
                  (k !in places <==> sessions[k].name.Some? && sessions[k].sends.Some? && sessions[k].sends.value < n))
  {
    if sessions != [] {
      var last := |sessions| - 1;
      PlacesAre(sessions[..last], n);
      forall k: nat | k < |sessions|
        ensures k !in Places(sessions, n) <==>
                sessions[k].name.Some? && sessions[k].sends.Some? && sessions[k].sends.value < n
      {
        if k < last { assert sessions[..last][k] == sessions[k]; }
      }
    }
  }

  /** Each session that is left has got the log, in its own place among those before. */
  lemma {:induction false} EachGot(sessions: seq<Session>, log: seq<Message>)
    ensures var left, places := After(sessions, log), Places(sessions, |log|);
            |left| == |places| &&
            forall i :: 0 <= i < |left| ==> places[i] < |sessions| && Got(sessions[places[i]], left[i], log)
  {
    if sessions != [] {
      var n := |sessions| - 1;
      EachGot(sessions[..n], log);
      AfterLast(sessions, log);
      var left, places := After(sessions[..n], log), Places(sessions[..n], |log|);
      forall i | 0 <= i < |left| ensures places[i] < |sessions| && Got(sessions[places[i]], left[i], log) {
        assert sessions[..n][places[i]] == sessions[places[i]];
      }
      if Outlasts(sessions[n], |log|) { assert Got(sessions[n], Extended(sessions[n], log), log); }
    }
  }

  /** As many farewells as sessions are gone, and one with the name of each. */
  lemma {:induction false} EachAnnounced(sessions: seq<Session>, n: nat)
    ensures |Announced(sessions, n)| + |Places(sessions, n)| == |sessions|
    ensures forall k: nat :: k < |sessions| && k !in Places(sessions, n) ==>
              sessions[k].name.Some? && Quit(sessions[k].name.value) in Announced(sessions, n)
  {
    if sessions != [] {
      var last := |sessions| - 1;
      EachAnnounced(sessions[..last], n);
      PlacesAre(sessions, n);
      var gone := Casualties(sessions[..last], n);
      if !Outlasts(sessions[last], n) {
        assert (gone + [sessions[last]])[..|gone|] == gone;
      }
      forall k: nat | k < |sessions| && k !in Places(sessions, n)
        ensures sessions[k].name.Some? && Quit(sessions[k].name.value) in Announced(sessions, n)
      {
        if k < last {
          assert sessions[..last][k] == sessions[k];
          assert k !in Places(sessions[..last], n);
        }
      }
    }
  }

  // ----- two series of messages in a row

  lemma ExtendTwice(s: Session, l: seq<Message>, m: seq<Message>)
    requires Outlasts(s, |l|)
    ensures Outlasts(Extended(s, l), |m|) <==> Outlasts(s, |l + m|)
    ensures Outlasts(s, |l + m|) ==> Extended(Extended(s, l), m) == Extended(s, l + m)
  {
    assert s.sent + (l + m) == s.sent + l + m && s.blocked + (l + m) == s.blocked + l + m;
  }

  lemma AfterLast(sessions: seq<Session>, log: seq<Message>)
    requires sessions != []
    ensures var n := |sessions| - 1;
            After(sessions, log) ==
            After(sessions[..n], log) + if Outlasts(sessions[n], |log|) then [Extended(sessions[n], log)] else []
  {
    SurvivorsOutlast(sessions, |log|);
    SurvivorsOutlast(sessions[..|sessions| - 1], |log|);
  }

  lemma AfterSnoc(sessions: seq<Session>, s: Session, log: seq<Message>)
    ensures After(sessions + [s], log) == After(sessions, log) + if Outlasts(s, |log|) then [Extended(s, log)] else []
    ensures Announced(sessions + [s], |log|) ==
            Announced(sessions, |log|) +
            if !Outlasts(s, |log|) then multiset{Quit(s.name.value)} else multiset{}
  {
    var t := sessions + [s];
    assert t[..|t| - 1] == sessions && t[|t| - 1] == s;
    AfterLast(t, log);
    if !Outlasts(s, |log|) {
      var c := Casualties(sessions, |log|);
      assert (c + [s])[..|c|] == c;
    }
  }

  lemma {:induction false} AfterTwice(sessions: seq<Session>, l: seq<Message>, m: seq<Message>)
    ensures After(After(sessions, l), m) == After(sessions, l + m)
    ensures Announced(sessions, |l|) + Announced(After(sessions, l), |m|) == Announced(sessions, |l + m|)
    decreases |sessions|
  {
    if sessions == [] {
      assert After(sessions, l) == [];
    } else {
      var n := |sessions| - 1;
      var init, s := sessions[..n], sessions[n];
      assert sessions == init + [s];
      AfterTwice(init, l, m);
      AfterSnoc(init, s, l);
      AfterSnoc(init, s, l + m);
      if Outlasts(s, |l|) {
        ExtendTwice(s, l, m);
        AfterSnoc(After(init, l), Extended(s, l), m);
      } else {
        assert After(sessions, l) == After(init, l);
      }
    }
  }

  lemma {:induction false} FarewellsFirst(gone: seq<Session>)
    requires gone != []
    ensures Farewells(gone) ==
            (if gone[0].name.Some? then multiset{Quit(gone[0].name.value)} else multiset{}) + Farewells(gone[1..])
  {
    var n := |gone| - 1;
    if n > 0 {
      FarewellsFirst(gone[..n]);
      assert gone[..n][1..] == gone[1..][..n - 1] && gone[1..][n - 1] == gone[n];
    }
  }

  /** A recursive call's messages, added to the log. */
  lemma LogGrows(log: seq<Message>, more: seq<Message>)
    requires |log| > 0 && |more| > 0
    ensures multiset((log + more)[1..]) == multiset(log[1..]) + multiset{more[0]} + multiset(more[1..])
  {
    assert (log + more)[1..] == log[1..] + more;
    assert more == [more[0]] + more[1..];
  }

  /** The announcement of one quitter, with everything that its broadcast led to. */
  lemma QuitterAnnounced(was: seq<Session>, log: seq<Message>, quitters: seq<Session>, j: nat, more: seq<Message>)
    requires j < |quitters| && quitters[j].name.Some?
    requires |log| > 0 && multiset(log[1..]) + Farewells(quitters[j..]) == Announced(was, |log|)
    requires |more| > 0 && more[0] == Quit(quitters[j].name.value)
    requires multiset(more[1..]) == Announced(After(was, log), |more|)
    ensures After(After(was, log), more) == After(was, log + more)
    ensures multiset((log + more)[1..]) + Farewells(quitters[j + 1..]) == Announced(was, |log + more|)
  {
    FarewellsFirst(quitters[j..]);
    assert quitters[j..][1..] == quitters[j + 1..];
    AfterTwice(was, log, more);
    LogGrows(log, more);
  }

  lemma NamelessQuitter(quitters: seq<Session>, j: nat)
    requires j < |quitters| && quitters[j].name.None?
    ensures Farewells(quitters[j..]) == Farewells(quitters[j + 1..])
  {
    FarewellsFirst(quitters[j..]);
    assert quitters[j..][1..] == quitters[j + 1..];
  }

  /** One session of the filter pass. */
  lemma OneSession(sessions: seq<Session>, i: nat, message: Message)
    requires i < |sessions|
    ensures After(sessions[..i + 1], [message]) ==
            After(sessions[..i], [message]) + if Fails(sessions[i]) then [] else [Delivered(sessions[i], message)]
    ensures Casualties(sessions[..i + 1], 1) == Casualties(sessions[..i], 1) + if Fails(sessions[i]) then [sessions[i]] else []
  {
    var s := sessions[i];
    assert sessions[..i + 1] == sessions[..i] + [s];
    AfterSnoc(sessions[..i], s, [message]);
    assert sessions[..i + 1][..i] == sessions[..i];
  }

  class ChatRoom {
    var sessions: seq<Session>

    /**
     However the sockets fail, the call ends. Every session that outlasts everything sent is
     kept, in place, with exactly the same messages added; every other is gone, and has been
     announced once.
     */
    method Broadcast(message: Message) returns (ghost log: seq<Message>)
      modifies this
      ensures |log| > 0 && log[0] == message
      ensures sessions == After(old(sessions), log)
      ensures multiset(log[1..]) == Announced(old(sessions), |log|)
      decreases |sessions|
    {
      var quitters := SendAll(message);
      log := [message];
      assert quitters[0..] == quitters;
      var j := 0;
      while j < |quitters|
        invariant 0 <= j <= |quitters|
        invariant |log| > 0 && log[0] == message
        invariant sessions == After(old(sessions), log)
        invariant |sessions| + |quitters| <= |old(sessions)|
        invariant multiset(log[1..]) + Farewells(quitters[j..]) == Announced(old(sessions), |log|)
      {
        var quitter := quitters[j];
        if quitter.name.Some? {
          var more := Broadcast(Quit(quitter.name.value));
          QuitterAnnounced(old(sessions), log, quitters, j, more);
          log := log + more;
        } else {
          NamelessQuitter(quitters, j);
        }
        j := j + 1;
      }
    }

    /** The filter pass: who keeps the message, and whose socket threw. */
    method SendAll(message: Message) returns (quitters: seq<Session>)
      modifies this
      ensures sessions == After(old(sessions), [message])
      ensures quitters == Casualties(old(sessions), 1)
    {
      var kept: seq<Session> := [];
      quitters := [];
      var i := 0;
      while i < |sessions|
        invariant 0 <= i <= |sessions| && sessions == old(sessions)
        invariant kept == After(sessions[..i], [message])
        invariant quitters == Casualties(sessions[..i], 1)
      {
        var session := sessions[i];
        OneSession(sessions, i, message);
        if session.name.Some? {
          if session.sends == Some(0) {
            quitters := quitters + [session];
          } else {
            kept := kept + [Delivered(session, message)];
          }
        } else {
          kept := kept + [Delivered(session, message)];
        }
        i := i + 1;
      }
      assert sessions[..i] == sessions;
      sessions := kept;
    }
  }
}
