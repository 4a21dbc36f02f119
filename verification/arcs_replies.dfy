/**
 What the ARCS host answers to each message and what it queues, said of the octets of the replies and the
 reports. It holds of every state, and so in every run.
 */
module ArcsReplies {
  import opened Words
  import opened ArcsFrame
  import opened ArcsApp

  /** A reply without data: type, number and command. */
  predicate Bare(r: Msg, typ: Octet, seqId: Short, cmd: Octet) {
    && r.head == 0xAA && r.typ == typ && r.seqId == seqId && r.cmd == cmd && r.dataLen == 0
    && forall i :: 0 <= i < 256 ==> r.dataBuf[i] == 0
  }

  /** A reply that echoes the address asked for. */
  predicate Echo(r: Msg, typ: Octet, m: Msg) {
    && r.head == 0xAA && r.typ == typ && r.seqId == m.seqId && r.cmd == 1 && r.dataLen == 2
    && r.dataBuf[0] == m.dataBuf[0] && r.dataBuf[1] == m.dataBuf[1] && forall i :: 2 <= i < 256 ==> r.dataBuf[i] == 0
  }

  /** A command that is not the last one executed again, and asks for terminals. */
  predicate NewQuery(a: App, m: Msg) {
    m.typ == 0 && m.cmd == 1 && m.seqId != a.lastSeq
  }

  predicate ForAll(m: Msg) {
    m.dataBuf[0] == 0xFF && m.dataBuf[1] == 0xFF
  }

  /** The state but for the number of the last command. */
  predicate OnlyNumbered(a: App, a': App, seqId: Short) {
    a' == a.(lastSeq := seqId)
  }

  /** A query for all terminals gets one reply, without data: type 82 exactly when reports are still
      waiting, and then nothing is queued; type 80 otherwise, and then the reports of all endpoints for
      which there is memory are queued, as far as there is room. */
  lemma AllAnswered(a: App, m: Msg, f: Found)
    requires NewQuery(a, m) && ForAll(m)
    ensures var (a', act) := OnMessage(a, m, f);
            && act.Executed? && act.seqId == m.seqId && act.cmd == 1 && |act.replies| == 1
            && Bare(act.replies[0], if a.queue != [] then 0x82 else 0x80, m.seqId, 1)
            && (a.queue != [] ==> OnlyNumbered(a, a', m.seqId))
            && (a.queue == [] ==>
                  && a'.lastSeq == m.seqId && a'.flag == a.flag && a'.cap == a.cap
                  && a'.queue == Posted([], a.cap, Allotted(Reports(f.endpoints, a.arcsSeq), f.memory))
                  && a'.arcsSeq == (a.arcsSeq + |Reports(f.endpoints, a.arcsSeq)|) % 0x1_0000)
  {
    hide Reports, Allotted, Posted;
  }

  /** A query for one terminal gets one reply: type 82 without data exactly when reports are waiting; else
      the address echoed, with type 81 exactly when there is no such terminal, and then nothing is queued;
      with type 80 otherwise, and then its report is queued, if there is memory. */
  lemma OneAnswered(a: App, m: Msg, f: Found)
    requires NewQuery(a, m) && !ForAll(m)
    ensures var (a', act) := OnMessage(a, m, f);
            && act.Executed? && act.seqId == m.seqId && act.cmd == 1 && |act.replies| == 1
            && (a.queue != [] ==> Bare(act.replies[0], 0x82, m.seqId, 1) && OnlyNumbered(a, a', m.seqId))
            && (a.queue == [] && f.terminal.None? ==> Echo(act.replies[0], 0x81, m) && OnlyNumbered(a, a', m.seqId))
            && (a.queue == [] && f.terminal.Some? ==>
                  && Echo(act.replies[0], 0x80, m)
                  && a'.lastSeq == m.seqId && a'.flag == a.flag && a'.cap == a.cap
                  && a'.arcsSeq == (a.arcsSeq + 1) % 0x1_0000
                  && a'.queue == (if f.memory(0) && a.cap > 0 then [Report([f.terminal.value], a'.arcsSeq)] else []))
  {
    if f.terminal.Some? {
      OneFiled(a.(lastSeq := m.seqId), Report([f.terminal.value], Next(a.arcsSeq)), f.memory);
    }
    hide Report, Flatten, Filed;
  }

  lemma OneFiled(a: App, r: Msg, mem: Memory)
    ensures var a' := Filed(a, [r], mem);
            a.queue == [] ==>
              a' == a.(arcsSeq := (a.arcsSeq + 1) % 0x1_0000, queue := if mem(0) && a.cap > 0 then [r] else [])
  {
    assert [r][..0] == [] && [r][..1] == [r] && Allotted([], mem) == [];
  }

  /** A command with the number of the last one executed is answered again, with type 80 and its own
      command, and changes nothing. */
  lemma RetransmissionAnswered(a: App, m: Msg, f: Found)
    requires m.typ < 0x80 && m.seqId == a.lastSeq
    ensures var (a', act) := OnMessage(a, m, f);
            a' == a && act.AnsweredAgain? && Bare(act.reply, 0x80, m.seqId, m.cmd)
  {}

  /** A response gets no reply; it frees the pump exactly when it answers a report, and changes nothing else. */
  lemma ResponseTaken(a: App, m: Msg, f: Found)
    requires m.typ >= 0x80
    ensures var (a', act) := OnMessage(a, m, f);
            act == Acknowledged(m.seqId) && a' == a.(flag := if m.cmd == 1 then false else a.flag)
  {}

  /** Any other command is executed with no reply of its own here, and only its number is kept. */
  lemma OtherCommand(a: App, m: Msg, f: Found)
    requires m.typ < 0x80 && m.seqId != a.lastSeq && !(m.cmd == 1 && m.typ == 0)
    ensures var (a', act) := OnMessage(a, m, f);
            act == Executed(m.seqId, m.cmd, []) && OnlyNumbered(a, a', m.seqId)
  {}

  /** Every report is a message of type 40 to the host, with the query's command. */
  lemma {:induction false} ReportsBear(rs: seq<Record>, last: Short)
    ensures forall m :: m in Reports(rs, last) ==> m.head == 0xAA && m.typ == 0x40 && m.cmd == 1
    decreases |rs|
  {
    if |rs| > PER_REPORT { ReportsBear(rs[PER_REPORT..], Next(last)); }
    hide Flatten;
  }

  lemma AllQueued(a: App, m: Msg, f: Found)
    requires NewQuery(a, m) && ForAll(m) && a.queue == [] && |f.endpoints| <= 3 * a.cap && f.memory == Plenty
    ensures OnMessage(a, m, f).0.queue == Reports(f.endpoints, a.arcsSeq)
  {
    var ms := Reports(f.endpoints, a.arcsSeq);
    AllAnswered(a, m, f);
    ReportsCount(f.endpoints, a.arcsSeq);
    PlentyForAll(ms);
    assert ms[..|ms|] == ms && [] + ms == ms;
    hide Reports, Allotted, OnMessage, Bare;
  }

  /** So a query for all that finds the queue empty, memory and room enough queues the records of all
      endpoints in list order, in reports of type 40. */
  lemma AllRecordsQueued(a: App, m: Msg, f: Found)
    requires NewQuery(a, m) && ForAll(m) && a.queue == [] && |f.endpoints| <= 3 * a.cap && f.memory == Plenty
    ensures var q := OnMessage(a, m, f).0.queue;
            && (forall r :: r in q ==> Fits(r) && r.head == 0xAA && r.typ == 0x40 && r.cmd == 1)
            && Payload(q) == Flatten(f.endpoints)
  {
    AllQueued(a, m, f);
    ReportsBear(f.endpoints, a.arcsSeq);
    ReportsCarryTheList(f.endpoints, a.arcsSeq);
    hide *;
  }
}
