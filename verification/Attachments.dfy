// The attachment loop of syncNotes: every reply is recorded before the next post.
module Attachments {
  import opened ClientDb
  import opened Models
  import opened SyncEngine
  import opened Wrappers

  /** One request for one attachment, and whether its id came back. */
  datatype Post = Post(id: int, acked: bool)

  datatype UploadResult = UploadResult(entries: seq<VaultEntry>, posts: seq<Post>)

  function Unsent(entries: seq<VaultEntry>): seq<VaultEntry> {
    if entries == [] then []
    else
      Unsent(entries[..|entries| - 1]) +
      if entries[|entries| - 1].serverId.None? then [entries[|entries| - 1]] else []
  }

  function Acknowledge(entries: seq<VaultEntry>, id: int, serverId: Uuid): (r: seq<VaultEntry>)
    ensures |r| == |entries|
    ensures forall i :: 0 <= i < |r| ==>
      r[i] == if entries[i].id == id then entries[i].(serverId := Some(serverId)) else entries[i]
  {
    seq(|entries|, i requires 0 <= i < |entries| =>
      if entries[i].id == id then entries[i].(serverId := Some(serverId)) else entries[i])
  }

  // A reply of None is an exception, which ends the loop.
  function Upload(entries: seq<VaultEntry>, pending: seq<VaultEntry>, replies: seq<Option<SyncResult<Uuid>>>)
    : UploadResult
    requires |pending| <= |replies|
    decreases pending
  {
    if pending == [] then UploadResult(entries, [])
    else
      match replies[0]
      case None => UploadResult(entries, [Post(pending[0].id, false)])
      case Some(Success(sId)) =>
        var rest := Upload(Acknowledge(entries, pending[0].id, sId), pending[1..], replies[1..]);
        UploadResult(rest.entries, [Post(pending[0].id, true)] + rest.posts)
      case Some(_) =>
        var rest := Upload(entries, pending[1..], replies[1..]);
        UploadResult(rest.entries, [Post(pending[0].id, false)] + rest.posts)
  }

  predicate Comes(reply: Option<SyncResult<Uuid>>) {
    reply.Some? && reply.value.Success?
  }

  function AfterReply(entries: seq<VaultEntry>, id: int, reply: Option<SyncResult<Uuid>>): seq<VaultEntry> {
    if Comes(reply) then Acknowledge(entries, id, reply.value.note) else entries
  }

  lemma UploadUnfolds(entries: seq<VaultEntry>, pending: seq<VaultEntry>, replies: seq<Option<SyncResult<Uuid>>>)
    requires pending != [] && |pending| <= |replies|
    ensures var rest := if replies[0].None? then UploadResult(entries, [])
                        else Upload(AfterReply(entries, pending[0].id, replies[0]), pending[1..], replies[1..]);
            Upload(entries, pending, replies)
              == UploadResult(rest.entries, [Post(pending[0].id, Comes(replies[0]))] + rest.posts)
  {
  }

  // The loop has made these posts, and what it would still do from attachment i on
  // completes them to the whole.
  ghost predicate Completes(whole: UploadResult, posts: seq<Post>, entries: seq<VaultEntry>, pending: seq<VaultEntry>,
                            replies: seq<Option<SyncResult<Uuid>>>, i: nat)
    requires i <= |pending| <= |replies|
  {
    var rest := Upload(entries, pending[i..], replies[i..]);
    whole == UploadResult(rest.entries, posts + rest.posts)
  }

  lemma CompletesOn(whole: UploadResult, posts: seq<Post>, entries: seq<VaultEntry>, pending: seq<VaultEntry>,
                    replies: seq<Option<SyncResult<Uuid>>>, i: nat)
    requires i < |pending| <= |replies| && Completes(whole, posts, entries, pending, replies, i)
    ensures var more := posts + [Post(pending[i].id, Comes(replies[i]))];
            if replies[i].None? then whole == UploadResult(entries, more)
            else Completes(whole, more, AfterReply(entries, pending[i].id, replies[i]), pending, replies, i + 1)
  {
    assert pending[i..][1..] == pending[i + 1..] && replies[i..][1..] == replies[i + 1..];
    UploadUnfolds(entries, pending[i..], replies[i..]);
  }

  method SyncAttachments(db: AppDatabase, replies: seq<Option<SyncResult<Uuid>>>)
    returns (posts: seq<Post>, ok: bool)
    requires |replies| >= |Unsent(db.vaultEntries)|
    modifies db`vaultEntries
    ensures UploadResult(db.vaultEntries, posts)
         == Upload(old(db.vaultEntries), Unsent(old(db.vaultEntries)), replies)
    ensures ok <==> forall i :: 0 <= i < |Unsent(old(db.vaultEntries))| ==> replies[i].Some?
  {
    var pending := Unsent(db.vaultEntries);
    ghost var whole := Upload(db.vaultEntries, pending, replies);
    assert pending[0..] == pending && replies[0..] == replies;
    posts := [];
    for i := 0 to |pending|
      invariant Completes(whole, posts, db.vaultEntries, pending, replies, i)
      invariant forall j :: 0 <= j < i ==> replies[j].Some?
    {
      CompletesOn(whole, posts, db.vaultEntries, pending, replies, i);
      if replies[i].None? {
        posts := posts + [Post(pending[i].id, false)];
        return posts, false;
      }
      if replies[i].value.Success? {
        db.vaultEntries := Acknowledge(db.vaultEntries, pending[i].id, replies[i].value.note);
        posts := posts + [Post(pending[i].id, true)];
      } else {
        posts := posts + [Post(pending[i].id, false)];
      }
    }
    return posts, true;
  }

  // ----- rounds in single steps, any number of them under way

  /** The attachments a round selected, the one it has come to, and whether it waits for
      the reply to that one. */
  datatype Round = Round(pending: seq<VaultEntry>, next: nat, waiting: bool)

  /** What happened, in order. */
  datatype Mark = Begun(round: nat) | Posted(round: nat, id: int) | Acked(round: nat, id: int, serverId: Uuid)

  datatype Phone = Phone(entries: seq<VaultEntry>, nextId: int, rounds: seq<Round>, log: seq<Mark>)

  datatype Event =
    | Attach(noteId: int, fileCipher: Bytes, nonce: Bytes, mimeType: Option<string>, fileSize: int, now: Time)
    | Begin
    | Send(r: nat)
    | Answer(r: nat, reply: Option<SyncResult<Uuid>>)

  const FRESH := Phone([], 1, [], [])

  predicate Possible(p: Phone, e: Event) {
    match e
    case Send(r) => r < |p.rounds| && p.rounds[r].next < |p.rounds[r].pending| && !p.rounds[r].waiting
    case Answer(r, _) => r < |p.rounds| && p.rounds[r].next < |p.rounds[r].pending| && p.rounds[r].waiting
    case _ => true
  }

  // An exception (a reply of None) ends the round; an impossible event changes nothing.
  function Next(p: Phone, e: Event): Phone {
    if !Possible(p, e) then p
    else
      match e
      case Attach(noteId, fileCipher, nonce, mimeType, fileSize, now) =>
        p.(entries := p.entries + [NewAttachment(p.nextId, noteId, fileCipher, nonce, mimeType, fileSize, now)],
           nextId := p.nextId + 1)
      case Begin =>
        p.(rounds := p.rounds + [Round(Unsent(p.entries), 0, false)], log := p.log + [Begun(|p.rounds|)])
      case Send(r) =>
        var x := p.rounds[r];
        p.(rounds := p.rounds[r := x.(waiting := true)], log := p.log + [Posted(r, x.pending[x.next].id)])
      case Answer(r, reply) =>
        var x := p.rounds[r];
        var id := x.pending[x.next].id;
        if reply.None? then p.(rounds := p.rounds[r := Round(x.pending, |x.pending|, false)])
        else
          p.(entries := AfterReply(p.entries, id, reply),
             rounds := p.rounds[r := Round(x.pending, x.next + 1, false)],
             log := p.log + if Comes(reply) then [Acked(r, id, reply.value.note)] else [])
  }

  function Run(events: seq<Event>): Phone {
    if events == [] then FRESH else Next(Run(events[..|events| - 1]), events[|events| - 1])
  }

  ghost predicate Distinct(entries: seq<VaultEntry>) {
    forall i, j :: 0 <= i < j < |entries| ==> entries[i].id != entries[j].id
  }

  lemma {:induction false} UnsentSelects(entries: seq<VaultEntry>)
    ensures forall e :: e in Unsent(entries) <==> e in entries && e.serverId.None?
    ensures Distinct(entries) ==> Distinct(Unsent(entries))
  {
    if entries != [] {
      var front, last := entries[..|entries| - 1], entries[|entries| - 1];
      UnsentSelects(front);
      assert entries == front + [last];
    }
  }

  // In the order of the table.
  lemma {:induction false} UnsentInOrder(entries: seq<VaultEntry>, i: nat, j: nat, a: nat, b: nat)
    requires Distinct(entries) && i < j < |Unsent(entries)| && a < |entries| && b < |entries|
    requires Unsent(entries)[i] == entries[a] && Unsent(entries)[j] == entries[b]
    ensures a < b
  {
    var n := |entries| - 1;
    var front := entries[..n];
    UnsentSelects(front);
    if j < |Unsent(front)| {
      assert Unsent(front)[i] in front && Unsent(front)[j] in front;
      UnsentInOrder(front, i, j, a, b);
    } else {
      assert Unsent(front)[i] in front;
    }
  }

  // The id that was acknowledged last.
  function LastAck(log: seq<Mark>, id: int): Option<Uuid> {
    if log == [] then None
    else
      var m := log[|log| - 1];
      if m.Acked? && m.id == id then Some(m.serverId) else LastAck(log[..|log| - 1], id)
  }

  predicate AckedAt(log: seq<Mark>, i: nat, id: int) {
    i < |log| && log[i].Acked? && log[i].id == id
  }

  lemma {:induction false} LastAckExists(log: seq<Mark>, id: int)
    ensures LastAck(log, id).Some? <==> exists i: nat :: AckedAt(log, i, id)
  {
    if log != [] {
      var n := |log| - 1;
      LastAckExists(log[..n], id);
      if AckedAt(log, n, id) {
      } else {
        assert forall i: nat :: AckedAt(log, i, id) <==> AckedAt(log[..n], i, id);
      }
    }
  }

  lemma LastAckSnoc(log: seq<Mark>, m: Mark, id: int)
    ensures LastAck(log + [m], id) == if m.Acked? && m.id == id then Some(m.serverId) else LastAck(log, id)
  {
    assert (log + [m])[..|log|] == log;
  }

  // ----- the invariant

  // The mark at b began round r, and the attachment had not been acknowledged by then.
  ghost predicate SelectedAt(log: seq<Mark>, b: nat, r: nat, id: int) {
    b < |log| && log[b] == Begun(r) && LastAck(log[..b], id).None?
  }

  ghost predicate Selected(log: seq<Mark>, n: nat, r: nat, id: int) {
    exists b: nat :: b < n && SelectedAt(log, b, r, id)
  }

  // One of the first n attachments of the round.
  ghost predicate Among(pending: seq<VaultEntry>, n: nat, id: int) {
    exists q :: 0 <= q < n && q < |pending| && pending[q].id == id
  }

  ghost predicate HasEntry(entries: seq<VaultEntry>, id: int) {
    exists e :: e in entries && e.id == id
  }

  ghost predicate RoundOk(p: Phone, r: nat)
    requires r < |p.rounds|
  {
    var x := p.rounds[r];
    && x.next <= |x.pending| && Distinct(x.pending)
    && (forall q :: 0 <= q < |x.pending| ==>
          HasEntry(p.entries, x.pending[q].id) && Selected(p.log, |p.log|, r, x.pending[q].id))
    && (forall j :: 0 <= j < |p.log| && p.log[j].Posted? && p.log[j].round == r ==>
          Among(x.pending, x.next + if x.waiting then 1 else 0, p.log[j].id))
    && (forall j :: 0 <= j < |p.log| && p.log[j].Acked? && p.log[j].round == r ==>
          Among(x.pending, x.next, p.log[j].id))
    && (x.waiting && x.next < |x.pending| ==> PostedBy(p.log, |p.log|, r, x.pending[x.next].id))
  }

  ghost predicate PostedBy(log: seq<Mark>, n: nat, r: nat, id: int) {
    exists j :: 0 <= j < n && j < |log| && log[j] == Posted(r, id)
  }

  // A round posts what it selected, each attachment once, and acknowledges only that.
  ghost predicate LogOk(log: seq<Mark>, rounds: nat) {
    && (forall j :: 0 <= j < |log| ==> log[j].round < rounds)
    && (forall i, j :: 0 <= i < j < |log| && log[i].Posted? && log[j].Posted? && log[i].round == log[j].round ==>
          log[i].id != log[j].id)
    && (forall i, j :: 0 <= i < j < |log| && log[i].Acked? && log[j].Acked? && log[i].round == log[j].round ==>
          log[i].id != log[j].id)
    && (forall j :: 0 <= j < |log| && log[j].Posted? ==> Selected(log, j, log[j].round, log[j].id))
    && (forall j :: 0 <= j < |log| && log[j].Acked? ==> PostedBy(log, j, log[j].round, log[j].id))
  }

  // An entry's server id is the one acknowledged last.
  ghost predicate EntriesOk(p: Phone) {
    && Distinct(p.entries)
    && (forall e :: e in p.entries ==> e.id < p.nextId && e.serverId == LastAck(p.log, e.id))
    && (forall j :: 0 <= j < |p.log| && !p.log[j].Begun? ==> p.log[j].id < p.nextId)
  }

  ghost predicate RoundsOk(p: Phone) {
    forall r :: 0 <= r < |p.rounds| ==> RoundOk(p, r)
  }

  ghost predicate PhoneOk(p: Phone) {
    EntriesOk(p) && LogOk(p.log, |p.rounds|) && RoundsOk(p)
  }

  lemma SelectedGrows(log: seq<Mark>, m: Mark, n: nat, r: nat, id: int)
    requires n <= |log| && Selected(log, n, r, id)
    ensures Selected(log + [m], n, r, id) && Selected(log + [m], |log| + 1, r, id)
  {
    var b: nat :| b < n && SelectedAt(log, b, r, id);
    assert (log + [m])[..b] == log[..b];
    assert SelectedAt(log + [m], b, r, id);
  }

  lemma PostedByGrows(log: seq<Mark>, m: Mark, n: nat, r: nat, id: int)
    requires n <= |log| && PostedBy(log, n, r, id)
    ensures PostedBy(log + [m], n, r, id) && PostedBy(log + [m], |log| + 1, r, id)
  {
    var j :| 0 <= j < n && j < |log| && log[j] == Posted(r, id);
    assert (log + [m])[j] == Posted(r, id);
  }

  // What a mark must satisfy to be appended.
  ghost predicate Fresh(log: seq<Mark>, rounds: nat, m: Mark) {
    && m.round < rounds
    && (m.Posted? ==> Selected(log, |log|, m.round, m.id)
                      && forall i :: 0 <= i < |log| && log[i].Posted? && log[i].round == m.round ==> log[i].id != m.id)
    && (m.Acked? ==> PostedBy(log, |log|, m.round, m.id)
                     && forall i :: 0 <= i < |log| && log[i].Acked? && log[i].round == m.round ==> log[i].id != m.id)
  }

  lemma LogGrows(log: seq<Mark>, rounds: nat, more: nat, m: Mark)
    requires LogOk(log, rounds) && rounds <= more && Fresh(log, more, m)
    ensures LogOk(log + [m], more)
  {
    var all := log + [m];
    forall j | 0 <= j < |all| && all[j].Posted? ensures Selected(all, j, all[j].round, all[j].id) {
      SelectedGrows(log, m, if j < |log| then j else |log|, all[j].round, all[j].id);
    }
    forall j | 0 <= j < |all| && all[j].Acked? ensures PostedBy(all, j, all[j].round, all[j].id) {
      PostedByGrows(log, m, if j < |log| then j else |log|, all[j].round, all[j].id);
    }
  }

  // Nothing that other rounds do, and no new attachment, upsets a round.
  lemma RoundUnaffected(p: Phone, q: Phone, r: nat, m: Mark)
    requires r < |p.rounds| && r < |q.rounds| && RoundOk(p, r) && q.rounds[r] == p.rounds[r]
    requires q.log == p.log || (q.log == p.log + [m] && (m.Begun? || m.round != r))
    requires forall e :: e in p.entries ==> HasEntry(q.entries, e.id)
    ensures RoundOk(q, r)
  {
    var x := q.rounds[r];
    forall i | 0 <= i < |x.pending|
      ensures HasEntry(q.entries, x.pending[i].id) && Selected(q.log, |q.log|, r, x.pending[i].id)
    {
      assert HasEntry(p.entries, x.pending[i].id);
      var e :| e in p.entries && e.id == x.pending[i].id;
      if q.log != p.log {
        SelectedGrows(p.log, m, |p.log|, r, x.pending[i].id);
      }
    }
    if q.log != p.log && x.waiting && x.next < |x.pending| {
      PostedByGrows(p.log, m, |p.log|, r, x.pending[x.next].id);
    }
  }

  lemma OthersUnaffected(p: Phone, q: Phone, r: nat, m: Mark)
    requires RoundsOk(p) && |p.rounds| <= |q.rounds|
    requires forall o :: 0 <= o < |p.rounds| && o != r ==> q.rounds[o] == p.rounds[o]
    requires q.log == p.log || (q.log == p.log + [m] && (m.Begun? || m.round == r))
    requires forall e :: e in p.entries ==> HasEntry(q.entries, e.id)
    ensures forall o :: 0 <= o < |p.rounds| && o != r ==> RoundOk(q, o)
  {
    forall o | 0 <= o < |p.rounds| && o != r ensures RoundOk(q, o) {
      RoundUnaffected(p, q, o, m);
    }
  }

  lemma AttachKeeps(p: Phone, e: Event)
    requires PhoneOk(p) && e.Attach?
    ensures PhoneOk(Next(p, e))
  {
    var q := Next(p, e);
    LastAckExists(p.log, p.nextId);
    assert forall f :: f in p.entries ==> f in q.entries;
    OthersUnaffected(p, q, |p.rounds|, Begun(0));
  }

  lemma MarkKeepsEntries(p: Phone, q: Phone, m: Mark)
    requires EntriesOk(p) && q.entries == p.entries && q.nextId == p.nextId && q.log == p.log + [m]
    requires !m.Acked? && (m.Posted? ==> HasEntry(p.entries, m.id))
    ensures EntriesOk(q)
  {
    forall f | f in q.entries ensures f.serverId == LastAck(q.log, f.id) {
      LastAckSnoc(p.log, m, f.id);
    }
  }

  lemma NewRoundOk(p: Phone)
    requires EntriesOk(p) && LogOk(p.log, |p.rounds|)
    ensures RoundOk(Next(p, Begin), |p.rounds|)
  {
    var q, n, pending := Next(p, Begin), |p.rounds|, Unsent(p.entries);
    UnsentSelects(p.entries);
    assert q.log[..|p.log|] == p.log;
    forall i | 0 <= i < |pending|
      ensures HasEntry(q.entries, pending[i].id) && Selected(q.log, |q.log|, n, pending[i].id)
    {
      assert pending[i] in pending;
      assert SelectedAt(q.log, |p.log|, n, pending[i].id);
    }
  }

  lemma BeginKeeps(p: Phone)
    requires PhoneOk(p)
    ensures PhoneOk(Next(p, Begin))
  {
    var q, n := Next(p, Begin), |p.rounds|;
    LogGrows(p.log, n, n + 1, Begun(n));
    MarkKeepsEntries(p, q, Begun(n));
    NewRoundOk(p);
    assert forall f :: f in p.entries ==> HasEntry(q.entries, f.id);
    OthersUnaffected(p, q, n, Begun(n));
  }

  lemma PostIsFresh(p: Phone, r: nat)
    requires RoundsOk(p) && Possible(p, Send(r))
    ensures var id := p.rounds[r].pending[p.rounds[r].next].id;
            Fresh(p.log, |p.rounds|, Posted(r, id)) && HasEntry(p.entries, id)
  {
    assert RoundOk(p, r);
  }

  lemma PostedRoundOk(p: Phone, r: nat)
    requires RoundsOk(p) && Possible(p, Send(r))
    ensures RoundOk(Next(p, Send(r)), r)
  {
    var q, x := Next(p, Send(r)), p.rounds[r];
    var id := x.pending[x.next].id;
    assert RoundOk(p, r);
    forall i | 0 <= i < |x.pending| ensures Selected(q.log, |q.log|, r, x.pending[i].id) {
      SelectedGrows(p.log, Posted(r, id), |p.log|, r, x.pending[i].id);
    }
    assert q.log[|p.log|] == Posted(r, id);
    assert Among(x.pending, x.next + 1, id);
    forall j | 0 <= j < |q.log| && q.log[j].Posted? && q.log[j].round == r
      ensures Among(x.pending, x.next + 1, q.log[j].id)
    {
      if j < |p.log| {
        assert Among(x.pending, x.next, p.log[j].id);
      }
    }
  }

  lemma SendKeeps(p: Phone, r: nat)
    requires PhoneOk(p) && Possible(p, Send(r))
    ensures PhoneOk(Next(p, Send(r)))
  {
    var q := Next(p, Send(r));
    var m := Posted(r, p.rounds[r].pending[p.rounds[r].next].id);
    PostIsFresh(p, r);
    assert LogOk(q.log, |q.rounds|) by {
      LogGrows(p.log, |p.rounds|, |p.rounds|, m);
    }
    MarkKeepsEntries(p, q, m);
    assert RoundsOk(q) by {
      PostedRoundOk(p, r);
      assert forall f :: f in p.entries ==> HasEntry(q.entries, f.id);
      OthersUnaffected(p, q, r, m);
    }
  }

  // A round that has moved on without an acknowledgement, or has ended.
  lemma PassedRoundOk(p: Phone, r: nat, next: nat)
    requires r < |p.rounds| && RoundOk(p, r) && p.rounds[r].next < next <= |p.rounds[r].pending|
    ensures RoundOk(p.(rounds := p.rounds[r := Round(p.rounds[r].pending, next, false)]), r)
  {
    var x := p.rounds[r];
    forall j | 0 <= j < |p.log| && !p.log[j].Begun? && p.log[j].round == r ensures Among(x.pending, next, p.log[j].id) {
      assert Among(x.pending, x.next + if x.waiting then 1 else 0, p.log[j].id)
          || Among(x.pending, x.next, p.log[j].id);
    }
  }

  lemma FailKeeps(p: Phone, r: nat, reply: Option<SyncResult<Uuid>>)
    requires PhoneOk(p) && Possible(p, Answer(r, reply)) && !Comes(reply)
    ensures PhoneOk(Next(p, Answer(r, reply)))
  {
    var q, x := Next(p, Answer(r, reply)), p.rounds[r];
    var next := if reply.None? then |x.pending| else x.next + 1;
    assert q == p.(rounds := p.rounds[r := Round(x.pending, next, false)]);
    PassedRoundOk(p, r, next);
    assert forall f :: f in p.entries ==> HasEntry(q.entries, f.id);
    OthersUnaffected(p, q, r, Begun(0));
  }

  lemma AckedEntries(entries: seq<VaultEntry>, log: seq<Mark>, m: Mark)
    requires m.Acked? && forall e :: e in entries ==> e.serverId == LastAck(log, e.id)
    ensures var after := Acknowledge(entries, m.id, m.serverId);
            && (forall f :: f in after ==> f.serverId == LastAck(log + [m], f.id) && HasEntry(entries, f.id))
            && (forall e :: e in entries ==> HasEntry(after, e.id))
  {
    var after := Acknowledge(entries, m.id, m.serverId);
    forall f | f in after ensures f.serverId == LastAck(log + [m], f.id) && HasEntry(entries, f.id) {
      LastAckSnoc(log, m, f.id);
      var i :| 0 <= i < |after| && after[i] == f;
      assert entries[i] in entries;
    }
    forall e | e in entries ensures HasEntry(after, e.id) {
      var i :| 0 <= i < |entries| && entries[i] == e;
      assert after[i] in after;
    }
  }

  lemma AckKeepsEntries(p: Phone, q: Phone, m: Mark)
    requires EntriesOk(p) && m.Acked? && HasEntry(p.entries, m.id)
    requires q.entries == Acknowledge(p.entries, m.id, m.serverId) && q.nextId == p.nextId && q.log == p.log + [m]
    ensures EntriesOk(q)
    ensures forall e :: e in p.entries ==> HasEntry(q.entries, e.id)
  {
    AckedEntries(p.entries, p.log, m);
    forall f | f in q.entries ensures f.id < q.nextId {
      assert HasEntry(p.entries, f.id);
    }
  }

  lemma AckIsFresh(p: Phone, r: nat, serverId: Uuid)
    requires RoundsOk(p) && r < |p.rounds| && p.rounds[r].next < |p.rounds[r].pending| && p.rounds[r].waiting
    ensures var id := p.rounds[r].pending[p.rounds[r].next].id;
            Fresh(p.log, |p.rounds|, Acked(r, id, serverId)) && HasEntry(p.entries, id)
  {
    assert RoundOk(p, r);
  }

  lemma AckKeeps(p: Phone, r: nat, reply: Option<SyncResult<Uuid>>)
    requires PhoneOk(p) && Possible(p, Answer(r, reply)) && Comes(reply)
    ensures PhoneOk(Next(p, Answer(r, reply)))
  {
    var q := Next(p, Answer(r, reply));
    var m := Acked(r, p.rounds[r].pending[p.rounds[r].next].id, reply.value.note);
    AckIsFresh(p, r, reply.value.note);
    assert LogOk(q.log, |q.rounds|) by {
      LogGrows(p.log, |p.rounds|, |p.rounds|, m);
    }
    AckKeepsEntries(p, q, m);
    assert RoundsOk(q) by {
      AckedRoundOk(p, q, r, m);
      OthersUnaffected(p, q, r, m);
    }
  }

  lemma AckedRoundOk(p: Phone, q: Phone, r: nat, m: Mark)
    requires r < |p.rounds| == |q.rounds| && RoundOk(p, r) && p.rounds[r].next < |p.rounds[r].pending|
    requires q.rounds[r] == Round(p.rounds[r].pending, p.rounds[r].next + 1, false)
    requires p.rounds[r].waiting && q.log == p.log + [m] && m.Acked? && m.id == p.rounds[r].pending[p.rounds[r].next].id
    requires forall e :: e in p.entries ==> HasEntry(q.entries, e.id)
    ensures RoundOk(q, r)
  {
    var x := p.rounds[r];
    forall i | 0 <= i < |x.pending|
      ensures HasEntry(q.entries, x.pending[i].id) && Selected(q.log, |q.log|, r, x.pending[i].id)
    {
      var e :| e in p.entries && e.id == x.pending[i].id;
      SelectedGrows(p.log, m, |p.log|, r, x.pending[i].id);
    }
    forall j | 0 <= j < |q.log| && q.log[j].Acked? && q.log[j].round == r
      ensures Among(x.pending, x.next + 1, q.log[j].id)
    {
      if j < |p.log| {
        assert Among(x.pending, x.next, p.log[j].id);
      }
    }
  }

  lemma {:induction false} RunKeeps(events: seq<Event>)
    ensures PhoneOk(Run(events))
  {
    if events != [] {
      var p, e := Run(events[..|events| - 1]), events[|events| - 1];
      RunKeeps(events[..|events| - 1]);
      if Possible(p, e) {
        match e {
          case Attach(_, _, _, _, _, _) => AttachKeeps(p, e);
          case Begin => BeginKeeps(p);
          case Send(r) => SendKeeps(p, r);
          case Answer(r, reply) =>
            if Comes(reply) {
              AckKeeps(p, r, reply);
            } else {
              FailKeeps(p, r, reply);
            }
        }
      }
    }
  }

  // ----- what is posted again

  lemma EachRoundPostsOnce(events: seq<Event>, i: nat, j: nat)
    requires i < j < |Run(events).log| && Run(events).log[i].Posted? && Run(events).log[j].Posted?
    requires Run(events).log[i].id == Run(events).log[j].id
    ensures Run(events).log[i].round != Run(events).log[j].round
  {
    RunKeeps(events);
  }

  // An attachment is posted after its acknowledgement only by another round, one that
  // began before the acknowledgement.
  lemma RepostedOnlyIfSelectedBefore(events: seq<Event>, i: nat, j: nat)
    requires i < j < |Run(events).log| && Run(events).log[i].Acked? && Run(events).log[j].Posted?
    requires Run(events).log[i].id == Run(events).log[j].id
    ensures var log := Run(events).log;
            log[i].round != log[j].round && exists b :: 0 <= b < i && log[b] == Begun(log[j].round)
  {
    RunKeeps(events);
    LogTellsReposts(Run(events).log, |Run(events).rounds|, i, j);
  }

  lemma LogTellsReposts(log: seq<Mark>, rounds: nat, i: nat, j: nat)
    requires LogOk(log, rounds) && i < j < |log| && log[i].Acked? && log[j].Posted? && log[i].id == log[j].id
    ensures log[i].round != log[j].round && exists b :: 0 <= b < i && log[b] == Begun(log[j].round)
  {
    var b: nat :| b < j && SelectedAt(log, b, log[j].round, log[j].id);
    if i < b {
      AckedInPrefix(log, b, i, log[j].id);
    }
    assert PostedBy(log, i, log[i].round, log[i].id);
  }

  lemma AckedInPrefix(log: seq<Mark>, b: nat, i: nat, id: int)
    requires i < b <= |log| && log[i].Acked? && log[i].id == id
    ensures LastAck(log[..b], id).Some?
  {
    LastAckExists(log[..b], id);
    assert AckedAt(log[..b], i, id);
  }

  lemma NextEntryExists(p: Phone, r: nat) returns (k: nat)
    requires PhoneOk(p) && Possible(p, Send(r))
    ensures k < |p.entries| && p.entries[k].id == p.rounds[r].pending[p.rounds[r].next].id
  {
    assert RoundOk(p, r);
    var id := p.rounds[r].pending[p.rounds[r].next].id;
    assert HasEntry(p.entries, id);
    var e :| e in p.entries && e.id == id;
    k :| 0 <= k < |p.entries| && p.entries[k] == e;
  }

  // And the client can tell before it posts: the entry a round comes to is still stored,
  // and to post it repeats an acknowledged attachment iff it has a server id by now.
  lemma NextPostRepeatsIff(events: seq<Event>, r: nat) returns (k: nat)
    requires Possible(Run(events), Send(r))
    ensures var p := Run(events);
            && k < |p.entries| && p.entries[k].id == p.rounds[r].pending[p.rounds[r].next].id
            && (p.entries[k].serverId.Some? <==> exists i: nat :: AckedAt(p.log, i, p.entries[k].id))
            && Next(p, Send(r)).log == p.log + [Posted(r, p.entries[k].id)]
  {
    RunKeeps(events);
    var p := Run(events);
    k := NextEntryExists(p, r);
    assert p.entries[k] in p.entries;
    LastAckExists(p.log, p.entries[k].id);
  }

  lemma RunSnoc(events: seq<Event>, e: Event)
    ensures Run(events + [e]) == Next(Run(events), e)
  {
    assert (events + [e])[..|events|] == events;
  }

  lemma OverlappingSteps(v: VaultEntry, one: Uuid, two: Uuid)
    requires v.serverId.None? && v.id == 1
    ensures var p := Phone([v], 2, [Round([v], 0, false), Round([v], 0, false)], [Begun(0), Begun(1)]);
            var q := Next(Next(p, Send(0)), Answer(0, Some(Success(one))));
            var u := Next(Next(q, Send(1)), Answer(1, Some(Success(two))));
            && u.log == [Begun(0), Begun(1), Posted(0, 1), Acked(0, 1, one), Posted(1, 1), Acked(1, 1, two)]
            && u.entries == [v.(serverId := Some(two))]
  {
    var p := Phone([v], 2, [Round([v], 0, false), Round([v], 0, false)], [Begun(0), Begun(1)]);
    var q := Next(Next(p, Send(0)), Answer(0, Some(Success(one))));
    assert q.entries == [v.(serverId := Some(one))];
    assert q.rounds == [Round([v], 1, false), Round([v], 0, false)];
    assert q.log == [Begun(0), Begun(1), Posted(0, 1), Acked(0, 1, one)];
  }

  lemma OverlappingStart(e: Event, v: VaultEntry)
    requires e.Attach? && v == VaultEntry(1, None, e.noteId, e.fileCipher, e.nonce, e.mimeType, e.fileSize, e.now)
    ensures Run([e, Begin, Begin])
         == Phone([v], 2, [Round([v], 0, false), Round([v], 0, false)], [Begun(0), Begun(1)])
  {
    var p1 := Phone([v], 2, [], []);
    var p2 := Phone([v], 2, [Round([v], 0, false)], [Begun(0)]);
    AttachFirst(e, v);
    BeginAfter([e], p1, v);
    assert [e] + [Begin] == [e, Begin];
    assert p1.rounds + [Round([v], 0, false)] == p2.rounds && p1.log + [Begun(0)] == p2.log;
    BeginAfter([e, Begin], p2, v);
    assert [e, Begin] + [Begin] == [e, Begin, Begin];
  }

  lemma BeginAfter(events: seq<Event>, p: Phone, v: VaultEntry)
    requires Run(events) == p && p.entries == [v] && v.serverId.None?
    ensures Run(events + [Begin])
         == Phone([v], p.nextId, p.rounds + [Round([v], 0, false)], p.log + [Begun(|p.rounds|)])
  {
    RunSnoc(events, Begin);
    assert [v][..0] == [];
    assert Unsent([v]) == [v];
  }

  lemma AttachFirst(e: Event, v: VaultEntry)
    requires e.Attach? && v == VaultEntry(1, None, e.noteId, e.fileCipher, e.nonce, e.mimeType, e.fileSize, e.now)
    ensures Run([e]) == Phone([v], 2, [], [])
  {
    assert [e][..0] == [] && [] + [v] == [v];
    assert Run([]) == FRESH;
  }

  // Two rounds that both select before either is answered post the attachment twice, and
  // the second answer replaces its server id.
  lemma OverlappingRoundsRepost(e: Event, one: Uuid, two: Uuid)
    requires e.Attach?
    ensures var p := Run([e, Begin, Begin] + [Send(0)] + [Answer(0, Some(Success(one)))]
                         + [Send(1)] + [Answer(1, Some(Success(two)))]);
            && p.log == [Begun(0), Begun(1), Posted(0, 1), Acked(0, 1, one), Posted(1, 1), Acked(1, 1, two)]
            && |p.entries| == 1 && p.entries[0].serverId == Some(two)
  {
    var v := VaultEntry(1, None, e.noteId, e.fileCipher, e.nonce, e.mimeType, e.fileSize, e.now);
    OverlappingStart(e, v);
    var start := [e, Begin, Begin];
    RunSnoc(start, Send(0));
    RunSnoc(start + [Send(0)], Answer(0, Some(Success(one))));
    RunSnoc(start + [Send(0)] + [Answer(0, Some(Success(one)))], Send(1));
    RunSnoc(start + [Send(0)] + [Answer(0, Some(Success(one)))] + [Send(1)], Answer(1, Some(Success(two))));
    OverlappingSteps(v, one, two);
  }

  // ----- what becomes of an entry

  // Entries stay, with all columns but the server id, and that is not taken away again.
  ghost predicate Extends(p: Phone, q: Phone, i: nat) {
    && i < |p.entries| && i < |q.entries| && p.log <= q.log
    && q.entries[i] == p.entries[i].(serverId := q.entries[i].serverId)
    && (p.entries[i].serverId.Some? ==> q.entries[i].serverId.Some?)
  }

  lemma NextExtends(p: Phone, e: Event, i: nat)
    requires i < |p.entries|
    ensures Extends(p, Next(p, e), i)
  {
  }

  lemma {:induction false} RunExtends(events: seq<Event>, more: seq<Event>, i: nat)
    requires i < |Run(events).entries|
    ensures Extends(Run(events), Run(events + more), i)
    decreases |more|
  {
    if more == [] {
      assert events + more == events;
    } else {
      var front, e := more[..|more| - 1], more[|more| - 1];
      RunExtends(events, front, i);
      assert events + more == events + front + [e];
      RunSnoc(events + front, e);
      NextExtends(Run(events + front), e, i);
    }
  }

  // An entry keeps all its columns but the server id, and that is always the one that was
  // acknowledged last; once set, it stays set.
  lemma EntriesFollowTheLog(events: seq<Event>, more: seq<Event>, i: nat)
    requires i < |Run(events).entries|
    ensures var p, q := Run(events), Run(events + more);
            && i < |q.entries| && p.log <= q.log
            && q.entries[i] == p.entries[i].(serverId := LastAck(q.log, p.entries[i].id))
            && (p.entries[i].serverId.Some? ==> q.entries[i].serverId.Some?)
  {
    RunExtends(events, more, i);
    RunKeeps(events + more);
    assert Run(events + more).entries[i] in Run(events + more).entries;
  }

  // ----- rounds that do not overlap

  // The marks of a round end before those of the next begin.
  ghost predicate OneAfterTheOther(log: seq<Mark>) {
    forall i, j :: 0 <= i < j < |log| ==> log[i].round <= log[j].round
  }

  // Then nothing is posted or acknowledged again after its acknowledgement, even if its
  // round ended in an exception.
  lemma SerialRoundsNeverRepeat(events: seq<Event>, i: nat, j: nat)
    requires OneAfterTheOther(Run(events).log) && i < j < |Run(events).log|
    requires Run(events).log[i].Acked? && !Run(events).log[j].Begun?
    ensures Run(events).log[i].id != Run(events).log[j].id
  {
    var log := Run(events).log;
    RunKeeps(events);
    if log[i].id == log[j].id {
      if log[j].Posted? {
        RepostedOnlyIfSelectedBefore(events, i, j);
      } else {
        assert PostedBy(log, j, log[j].round, log[j].id);
        var k :| 0 <= k < j && log[k] == Posted(log[j].round, log[j].id);
        if i < k {
          RepostedOnlyIfSelectedBefore(events, i, k);
        }
      }
    }
  }

  lemma {:induction false} LastAckStays(early: seq<Mark>, log: seq<Mark>, id: int)
    requires early <= log && forall j :: |early| <= j < |log| && log[j].Acked? ==> log[j].id != id
    ensures LastAck(log, id) == LastAck(early, id)
  {
    if |early| < |log| {
      LastAckStays(early, log[..|log| - 1], id);
    } else {
      assert early == log;
    }
  }

  lemma NoLaterAck(events: seq<Event>, early: seq<Mark>, id: int)
    requires OneAfterTheOther(Run(events).log) && early <= Run(events).log && LastAck(early, id).Some?
    ensures LastAck(Run(events).log, id) == LastAck(early, id)
  {
    var log := Run(events).log;
    LastAckExists(early, id);
    var a: nat :| AckedAt(early, a, id);
    assert log[a] == early[a];
    forall j | |early| <= j < |log| && log[j].Acked? ensures log[j].id != id {
      SerialRoundsNeverRepeat(events, a, j);
    }
    LastAckStays(early, log, id);
  }

  // And an entry that has a server id never changes again.
  lemma AcknowledgedIsFinal(events: seq<Event>, more: seq<Event>, i: nat)
    requires OneAfterTheOther(Run(events + more).log)
    requires i < |Run(events).entries| && Run(events).entries[i].serverId.Some?
    ensures i < |Run(events + more).entries| && Run(events + more).entries[i] == Run(events).entries[i]
  {
    var p := Run(events);
    RunKeeps(events);
    assert p.entries[i] in p.entries;
    EntriesFollowTheLog(events, more, i);
    NoLaterAck(events + more, p.log, p.entries[i].id);
  }

  // ----- what the loop does, item by item

  ghost predicate Unanswered(pending: seq<VaultEntry>, posts: seq<Post>, id: int)
    requires |posts| <= |pending|
  {
    forall i :: 0 <= i < |posts| && posts[i].acked ==> pending[i].id != id
  }

  // Posts go out in the order of selection, one for each attachment up to the first
  // exception; a post is acknowledged iff its reply is a Success, whose id its entry gets.
  ghost predicate LoopSays(entries: seq<VaultEntry>, pending: seq<VaultEntry>, replies: seq<Option<SyncResult<Uuid>>>,
                           r: UploadResult)
    requires |pending| <= |replies|
  {
    var n := |r.posts|;
    && n <= |pending| && |r.entries| == |entries|
    && (forall i :: 0 <= i < n ==>
          r.posts[i].id == pending[i].id && (r.posts[i].acked <==> replies[i].Some? && replies[i].value.Success?))
    && (forall i :: 0 <= i < n - 1 ==> replies[i].Some?)
    && (n < |pending| ==> n > 0 && replies[n - 1].None?)
    && (forall k, i :: 0 <= k < |entries| && 0 <= i < n && r.posts[i].acked && pending[i].id == entries[k].id ==>
          r.entries[k] == entries[k].(serverId := Some(replies[i].value.note)))
    && (forall k :: 0 <= k < |entries| && Unanswered(pending, r.posts, entries[k].id) ==> r.entries[k] == entries[k])
  }

  lemma LoopSaysFurther(entries: seq<VaultEntry>, after: seq<VaultEntry>, pending: seq<VaultEntry>,
                        replies: seq<Option<SyncResult<Uuid>>>, rest: UploadResult)
    requires 0 < |pending| <= |replies| && Distinct(pending) && replies[0].Some?
    requires after == AfterReply(entries, pending[0].id, replies[0])
    requires LoopSays(after, pending[1..], replies[1..], rest)
    ensures LoopSays(entries, pending, replies,
                     UploadResult(rest.entries, [Post(pending[0].id, Comes(replies[0]))] + rest.posts))
  {
    var r := UploadResult(rest.entries, [Post(pending[0].id, Comes(replies[0]))] + rest.posts);
    var n := |r.posts|;
    assert forall i :: 0 < i < n ==> r.posts[i] == rest.posts[i - 1] && pending[i] == pending[1..][i - 1]
                                     && replies[i] == replies[1..][i - 1];
    forall k, i | 0 <= k < |entries| && 0 <= i < n && r.posts[i].acked && pending[i].id == entries[k].id
      ensures r.entries[k] == entries[k].(serverId := Some(replies[i].value.note))
    {
      if i > 0 {
        assert pending[1..][i - 1].id == after[k].id;
      } else {
        assert Unanswered(pending[1..], rest.posts, after[k].id) by {
          assert forall j :: 0 <= j < |rest.posts| ==> pending[1..][j] == pending[j + 1];
        }
      }
    }
    forall k | 0 <= k < |entries| && Unanswered(pending, r.posts, entries[k].id)
      ensures r.entries[k] == entries[k]
    {
      assert after[k] == entries[k];
      assert Unanswered(pending[1..], rest.posts, after[k].id) by {
        assert forall j :: 0 <= j < |rest.posts| ==>
          pending[1..][j] == pending[j + 1] && r.posts[j + 1] == rest.posts[j];
      }
    }
  }

  lemma {:induction false} UploadSays(entries: seq<VaultEntry>, pending: seq<VaultEntry>,
                                      replies: seq<Option<SyncResult<Uuid>>>)
    requires |pending| <= |replies| && Distinct(pending)
    ensures LoopSays(entries, pending, replies, Upload(entries, pending, replies))
    decreases |pending|
  {
    if pending != [] {
      UploadUnfolds(entries, pending, replies);
      if replies[0].Some? {
        var after := AfterReply(entries, pending[0].id, replies[0]);
        UploadSays(after, pending[1..], replies[1..]);
        LoopSaysFurther(entries, after, pending, replies, Upload(after, pending[1..], replies[1..]));
      }
    }
  }

  // A round that meets an exception does nothing more.
  ghost predicate Ended(p: Phone, r: nat, n: nat) {
    && r < |p.rounds| && p.rounds[r].next >= |p.rounds[r].pending| && n <= |p.log|
    && forall j :: n <= j < |p.log| ==> p.log[j].round != r
  }

  lemma {:induction false} ExceptionEndsRound(events: seq<Event>, r: nat, more: seq<Event>)
    requires Possible(Run(events), Answer(r, None))
    ensures Ended(Run(events + [Answer(r, None)] + more), r, |Run(events).log|)
    decreases |more|
  {
    if more == [] {
      RunSnoc(events, Answer(r, None));
      assert events + [Answer(r, None)] + more == events + [Answer(r, None)];
    } else {
      var front, e := more[..|more| - 1], more[|more| - 1];
      ExceptionEndsRound(events, r, front);
      RunSnoc(events + [Answer(r, None)] + front, e);
      assert events + [Answer(r, None)] + more == events + [Answer(r, None)] + front + [e];
    }
  }

  // ----- a round that nothing disturbs is the loop of syncNotes

  // What the log says of these posts.
  function Marks(r: nat, posts: seq<Post>, replies: seq<Option<SyncResult<Uuid>>>): seq<Mark>
    requires |posts| <= |replies|
  {
    if posts == [] then []
    else
      [Posted(r, posts[0].id)]
      + (if Comes(replies[0]) then [Acked(r, posts[0].id, replies[0].value.note)] else [])
      + Marks(r, posts[1..], replies[1..])
  }

  // Round r posts and is answered, until it ends.
  function Driven(p: Phone, r: nat, replies: seq<Option<SyncResult<Uuid>>>): Phone
    requires r < |p.rounds| && p.rounds[r].next <= |p.rounds[r].pending|
    requires |p.rounds[r].pending| - p.rounds[r].next <= |replies|
    decreases |replies|
  {
    var x := p.rounds[r];
    if x.waiting || x.next == |x.pending| then p
    else Driven(Next(Next(p, Send(r)), Answer(r, replies[0])), r, replies[1..])
  }

  lemma {:induction false} DrivenIsUpload(p: Phone, r: nat, replies: seq<Option<SyncResult<Uuid>>>)
    requires r < |p.rounds| && p.rounds[r].next <= |p.rounds[r].pending| && !p.rounds[r].waiting
    requires |p.rounds[r].pending| - p.rounds[r].next <= |replies|
    ensures var d, u := Driven(p, r, replies), Upload(p.entries, p.rounds[r].pending[p.rounds[r].next..], replies);
            d.entries == u.entries && |u.posts| <= |replies| && d.log == p.log + Marks(r, u.posts, replies)
    decreases |replies|
  {
    var x := p.rounds[r];
    if x.next < |x.pending| {
      var rest := x.pending[x.next..];
      var q := Next(Next(p, Send(r)), Answer(r, replies[0]));
      assert rest[1..] == x.pending[x.next + 1..];
      UploadUnfolds(p.entries, rest, replies);
      if replies[0].Some? {
        assert q.rounds[r] == Round(x.pending, x.next + 1, false);
        DrivenIsUpload(q, r, replies[1..]);
      }
    }
  }
}
