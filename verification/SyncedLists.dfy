// What the note list shows on a device that syncs: over runs of the protocol, with any
// number of rounds under way.
module SyncedLists {
  import opened ClientDb
  import opened Envelope
  import opened Models
  import opened NoteStore
  import opened Protocol
  import opened SyncEngine
  import opened SyncService
  import opened SyncedRows
  import opened VaultNotes
  import VaultRuns
  import opened Wrappers

  // ----- read off the run

  // Move j is a save or an edit of the note by its own device.
  predicate WritesLocally(worlds: seq<World>, moves: seq<Move>, j: nat, k: int, id: int)
    requires j < |moves| < |worlds|
  {
    moves[j].client == k && k in worlds[j].clients &&
    match moves[j].action
    case Save(_, _, _) => worlds[j].clients[k].nextId == id
    case Edit(n, _, _, _, _, _) => n == id
    case _ => false
  }

  // Move j writes a Conflict into the note.
  predicate Overwrites(worlds: seq<World>, moves: seq<Move>, j: nat, k: int, id: int)
    requires j < |moves| < |worlds|
  {
    moves[j].client == k && k in worlds[j].clients && Rewrites(worlds[j].clients[k], moves[j].action, id)
    && Incoming(worlds[j].clients[k], moves[j].action).Conflict?
  }

  function Incoming(c: Client, a: Action): SyncResult<Note>
    requires a.Write? && Allowed(c, a)
  {
    c.flights[a.f].results[c.flights[a.f].written]
  }

  // The last move that set the text of the note.
  function LastText(worlds: seq<World>, moves: seq<Move>, i: nat, k: int, id: int): (j: Option<nat>)
    requires i <= |moves| < |worlds|
    ensures j.Some? ==> j.value < i
    ensures j.Some? ==> WritesLocally(worlds, moves, j.value, k, id) || Overwrites(worlds, moves, j.value, k, id)
  {
    if i == 0 then None
    else if WritesLocally(worlds, moves, i - 1, k, id) || Overwrites(worlds, moves, i - 1, k, id) then Some(i - 1)
    else LastText(worlds, moves, i - 1, k, id)
  }

  // Nothing but the last save or edit counts, iff no Conflict has been written since.
  lemma {:induction false} LastTextIsLocalIff(worlds: seq<World>, moves: seq<Move>, i: nat, k: int, id: int, w: nat)
    requires w < i <= |moves| < |worlds| && WritesLocally(worlds, moves, w, k, id)
    requires forall n :: w < n < i ==> !WritesLocally(worlds, moves, n, k, id)
    ensures LastText(worlds, moves, i, k, id) == Some(w)
       <==> forall n :: w < n < i ==> !Overwrites(worlds, moves, n, k, id)
    ensures LastText(worlds, moves, i, k, id).Some? && LastText(worlds, moves, i, k, id).value >= w
    ensures LastText(worlds, moves, i, k, id) != Some(w) ==>
      Overwrites(worlds, moves, LastText(worlds, moves, i, k, id).value, k, id)
  {
    if i > w + 1 {
      LastTextIsLocalIff(worlds, moves, i - 1, k, id, w);
    }
  }

  // ----- the rows

  // The row says what move j has written.
  predicate SaysAsOf(worlds: seq<World>, moves: seq<Move>, j: nat, k: int, r: NoteEntry)
    requires j < |moves| < |worlds|
    requires WritesLocally(worlds, moves, j, k, r.id) || Overwrites(worlds, moves, j, k, r.id)
  {
    match moves[j].action
    case Save(title, content, now) =>
      r.titleCipher == Build(title) && r.contentCipher == Build(content) && r.updatedAt == now
    case Edit(_, title, content, _, now, _) =>
      r.titleCipher == Build(title) && r.contentCipher == Build(content) && r.updatedAt == now
    case _ =>
      var n := Incoming(worlds[j].clients[k], moves[j].action).serverVersion;
      r.titleCipher == n.titleCipher && r.contentCipher == n.contentCipher
  }

  lemma RowFrom(c: Client, t: Table, a: Action, r: NoteEntry) returns (q: NoteEntry)
    requires Allowed(c, a) && Numbered(c.rows, c.nextId) && r in ClientNext(c, t, a).rows
    ensures (a.Save? && r == NewRow(c.nextId, Build(a.title), Build(a.content), a.now))
            || (q in c.rows && q.id == r.id && (a.Save? ==> r.id != c.nextId)
                && r == (if a.Edit? && a.id == q.id
                         then Edited(q, Build(a.title), Build(a.content), a.currentVersion, a.now, a.resets)
                         else if Rewrites(c, a, q.id) then Merge(q, Incoming(c, a))
                         else q))
  {
    var d := ClientNext(c, t, a);
    if a.Delete? {
      WithoutRemoves(c.rows, a.id);
      q := r;
    } else {
      var i :| 0 <= i < |d.rows| && d.rows[i] == r;
      q := if i < |c.rows| then c.rows[i] else r;
    }
  }

  lemma {:induction false} RowsSayLastText(worlds: seq<World>, moves: seq<Move>, i: nat, k: int, r: NoteEntry)
    requires IsRun(worlds, moves) && i < |worlds| && HasRow(worlds[i], k, r)
    ensures var j := LastText(worlds, moves, i, k, r.id); j.Some? && SaysAsOf(worlds, moves, j.value, k, r)
  {
    if i > 0 {
      var w, m := worlds[i - 1], moves[i - 1];
      RunKeeps(worlds, moves, i - 1);
      assert Leads(worlds, moves, i - 1);
      if m.client == k {
        assert ClientOk(w.clients[k], w.server.held);
        var q := RowFrom(w.clients[k], w.server.table, m.action, r);
        if q in w.clients[k].rows && q.id == r.id && (m.action.Save? ==> r.id != w.clients[k].nextId) {
          RowsSayLastText(worlds, moves, i - 1, k, q);
          if !WritesLocally(worlds, moves, i - 1, k, r.id) && !Overwrites(worlds, moves, i - 1, k, r.id) {
            SameTextSays(worlds, moves, LastText(worlds, moves, i - 1, k, r.id).value, k, q, r);
          }
        }
      } else {
        RowsSayLastText(worlds, moves, i - 1, k, r);
      }
    }
  }

  lemma SameTextSays(worlds: seq<World>, moves: seq<Move>, j: nat, k: int, q: NoteEntry, r: NoteEntry)
    requires j < |moves| < |worlds|
    requires WritesLocally(worlds, moves, j, k, q.id) || Overwrites(worlds, moves, j, k, q.id)
    requires SaysAsOf(worlds, moves, j, k, q) && r.id == q.id && r.updatedAt == q.updatedAt
    requires r.titleCipher == q.titleCipher && r.contentCipher == q.contentCipher
    ensures SaysAsOf(worlds, moves, j, k, r)
  {
  }

  // ----- the list

  // A save, an edit or a delete of the protocol is what the repository does with the texts
  // that its boxes seal.
  lemma LocalMovesAreRepositorySteps(p: Primitives, kdf: Kdf, v: VaultRuns.Vault, c: Client, t: Table, a: Action,
                                     w: VaultRuns.Plain)
    requires Allowed(c, a) && v.rows == c.rows && v.nextId == c.nextId && v.door.masterKey == Some(w.key)
    requires (a.Save? || a.Edit?) && SealedAs(p, a, w)
    requires a.Edit? ==> a.currentVersion.Some?
    ensures var e := if a.Save? then VaultRuns.Save(w.title, w.content, a.title.nonce, a.content.nonce, a.now)
                     else VaultRuns.Edit(a.id, w.title, w.content, a.currentVersion, a.title.nonce, a.content.nonce,
                                         a.now, a.resets);
            var after := VaultRuns.Step(p, kdf, v, e);
            ClientNext(c, t, a).rows == after.rows && ClientNext(c, t, a).nextId == after.nextId
  {
  }

  lemma DeletesAreRepositorySteps(p: Primitives, kdf: Kdf, v: VaultRuns.Vault, c: Client, t: Table, id: int)
    requires v.rows == c.rows && v.nextId == c.nextId && v.door.masterKey.Some?
    ensures var after := VaultRuns.Step(p, kdf, v, VaultRuns.Delete(id));
            ClientNext(c, t, Delete(id)).rows == after.rows && ClientNext(c, t, Delete(id)).nextId == after.nextId
  {
  }

  // The boxes of every save and edit seal these texts.
  ghost predicate SealedAs(p: Primitives, a: Action, w: VaultRuns.Plain)
    requires a.Save? || a.Edit?
  {
    && a.title == p.seal(w.key, a.title.nonce, p.encode(w.title)) && WellFormed(p, w.title)
    && a.content == p.seal(w.key, a.content.nonce, p.encode(w.content)) && WellFormed(p, w.content)
    && w.at == a.now
  }

  ghost predicate AllSealed(p: Primitives, moves: seq<Move>, texts: seq<VaultRuns.Plain>) {
    && Sound(p) && Authentic(p) && |texts| == |moves|
    && forall j :: 0 <= j < |moves| && (moves[j].action.Save? || moves[j].action.Edit?) ==>
         SealedAs(p, moves[j].action, texts[j])
  }

  lemma LocalTextOpens(p: Primitives, worlds: seq<World>, moves: seq<Move>, texts: seq<VaultRuns.Plain>,
                       i: nat, k: int, r: NoteEntry)
    requires IsRun(worlds, moves) && AllSealed(p, moves, texts) && i < |worlds| && HasRow(worlds[i], k, r)
    requires var j := LastText(worlds, moves, i, k, r.id); j.Some? && WritesLocally(worlds, moves, j.value, k, r.id)
    ensures VaultRuns.Says(p, r, texts[LastText(worlds, moves, i, k, r.id).value])
  {
    RowsSayLastText(worlds, moves, i, k, r);
    var j := LastText(worlds, moves, i, k, r.id).value;
    var a := moves[j].action;
    assert Leads(worlds, moves, j);
    VaultRuns.SealedSays(p, r, texts[j], a.title.nonce, a.content.nonce);
  }

  // The image that an overwriting Conflict brought, which the server has held.
  lemma ReceivedImage(worlds: seq<World>, moves: seq<Move>, i: nat, k: int, r: NoteEntry) returns (s: Uuid, im: Image)
    requires IsRun(worlds, moves) && i < |worlds| && HasRow(worlds[i], k, r)
    requires var j := LastText(worlds, moves, i, k, r.id); j.Some? && !WritesLocally(worlds, moves, j.value, k, r.id)
    ensures Held(worlds[i].server.held, s, im) && r.titleCipher == im.title && r.contentCipher == im.content
  {
    RowsSayLastText(worlds, moves, i, k, r);
    var j := LastText(worlds, moves, i, k, r.id).value;
    var c, a := worlds[j].clients[k], moves[j].action;
    var n := Incoming(c, a).serverVersion;
    RunKeeps(worlds, moves, j);
    assert ClientOk(c, worlds[j].server.held);
    var x := c.flights[a.f];
    assert FlightOk(x, worlds[j].server.held);
    assert ReplyOk(x.sent[x.written], x.clock[x.written], x.results[x.written], worlds[j].server.held);
    RunGrows(worlds, moves, j, i);
    HeldGrows(worlds[j].server.held, worlds[i].server.held, n.id, ImageOf(n));
    s, im := n.id, ImageOf(n);
  }

  // What a listed note shows: the last save or edit of its device, which was made under
  // this very key, if no Conflict has been written into it since; otherwise what the
  // server held in that Conflict, as far as it opens under the key.
  ghost predicate ShowsLastText(p: Primitives, worlds: seq<World>, moves: seq<Move>, texts: seq<VaultRuns.Plain>,
                                i: nat, k: int, key: SecretKey, m: NoteModel)
    requires i <= |moves| < |worlds| && |texts| == |moves|
  {
    var j := LastText(worlds, moves, i, k, m.id);
    && j.Some?
    && if WritesLocally(worlds, moves, j.value, k, m.id)
       then
         var w := texts[j.value];
         w.key == key && w.title == m.title && w.content == m.content && w.at == m.updatedAt
       else exists s, im :: Held(worlds[i].server.held, s, im) && Decrypt(p, im.title, key) == Some(m.title)
                            && Decrypt(p, im.content, key) == Some(m.content)
  }

  lemma ModelShows(p: Primitives, worlds: seq<World>, moves: seq<Move>, texts: seq<VaultRuns.Plain>,
                   i: nat, k: int, key: SecretKey, r: NoteEntry)
    requires IsRun(worlds, moves) && AllSealed(p, moves, texts) && i < |worlds| && HasRow(worlds[i], k, r)
    requires Model(p, r, key).Some?
    ensures ShowsLastText(p, worlds, moves, texts, i, k, key, Model(p, r, key).value)
  {
    RowsSayLastText(worlds, moves, i, k, r);
    var j := LastText(worlds, moves, i, k, r.id);
    if WritesLocally(worlds, moves, j.value, k, r.id) {
      LocalTextOpens(p, worlds, moves, texts, i, k, r);
    } else {
      var s, im := ReceivedImage(worlds, moves, i, k, r);
    }
  }

  // In any run, with any number of rounds under way: what is listed under a key shows, for
  // each note, its last text as above. Every row last written under the key by its device
  // is listed, every note once, newest first.
  lemma SyncedListShows(p: Primitives, worlds: seq<World>, moves: seq<Move>,
                                           texts: seq<VaultRuns.Plain>, i: nat, k: int, key: SecretKey,
                                           notes: seq<NoteModel>)
    requires IsRun(worlds, moves) && AllSealed(p, moves, texts) && i < |worlds| && k in worlds[i].clients
    requires Newest.Ordered(notes, LastChanged)
    requires multiset(notes) == multiset(Shown(p, worlds[i].clients[k].rows, key))
    ensures forall m :: m in notes ==> ShowsLastText(p, worlds, moves, texts, i, k, key, m)
    ensures forall r :: r in worlds[i].clients[k].rows ==>
      var j := LastText(worlds, moves, i, k, r.id);
      j.Some? && (WritesLocally(worlds, moves, j.value, k, r.id) && texts[j.value].key == key
                  ==> exists m :: m in notes && m.id == r.id)
    ensures forall a, b :: 0 <= a < b < |notes| ==>
      notes[a].id != notes[b].id && notes[a].updatedAt >= notes[b].updatedAt
  {
    var rows := worlds[i].clients[k].rows;
    RunKeeps(worlds, moves, i);
    assert ClientOk(worlds[i].clients[k], worlds[i].server.held);
    ShownSelects(p, rows, key);
    SameElements(notes, Shown(p, rows, key));
    forall m | m in notes ensures ShowsLastText(p, worlds, moves, texts, i, k, key, m) {
      var r :| r in rows && Model(p, r, key) == Some(m);
      ModelShows(p, worlds, moves, texts, i, k, key, r);
    }
    forall r | r in rows
      ensures var j := LastText(worlds, moves, i, k, r.id);
              j.Some? && (WritesLocally(worlds, moves, j.value, k, r.id) && texts[j.value].key == key
                          ==> exists m :: m in notes && m.id == r.id)
    {
      OwnTextIsListed(p, worlds, moves, texts, i, k, key, r);
      assert Model(p, r, key).Some? ==> Model(p, r, key).value in notes;
    }
    ShuffledIdsStayDistinct(Shown(p, rows, key), notes);
    forall a, b | 0 <= a < b < |notes| ensures notes[a].updatedAt >= notes[b].updatedAt {
      assert LastChanged(notes[a]) >= LastChanged(notes[b]);
    }
  }

  lemma OwnTextIsListed(p: Primitives, worlds: seq<World>, moves: seq<Move>, texts: seq<VaultRuns.Plain>,
                        i: nat, k: int, key: SecretKey, r: NoteEntry)
    requires IsRun(worlds, moves) && AllSealed(p, moves, texts) && i < |worlds| && HasRow(worlds[i], k, r)
    ensures var j := LastText(worlds, moves, i, k, r.id);
            j.Some? && (WritesLocally(worlds, moves, j.value, k, r.id) && texts[j.value].key == key
                        ==> Model(p, r, key).Some? && Model(p, r, key).value.id == r.id)
  {
    RowsSayLastText(worlds, moves, i, k, r);
    var j := LastText(worlds, moves, i, k, r.id);
    if WritesLocally(worlds, moves, j.value, k, r.id) {
      LocalTextOpens(p, worlds, moves, texts, i, k, r);
    }
  }
}
