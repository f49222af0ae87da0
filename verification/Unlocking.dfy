// Unlocking in single steps, with any number of unlocks under way. The look-up of the
// metadata, its creation and the second look-up are statements of their own, and nothing
// keeps two unlocks apart.
module Unlocking {
  import opened ClientDb
  import opened Envelope
  import opened Models
  import opened VaultNotes
  import opened Wrappers

  /** How far an unlock has come: it saw no metadata, it has added some, it has a salt to
      derive the key from, or it has ended. */
  datatype Progress =
    | Missing(password: string)
    | Added(password: string)
    | Known(password: string, salt: Bytes)
    | Over

  datatype Door = Door(metadata: seq<VaultMetadata>, unlocks: seq<Progress>, masterKey: Option<SecretKey>)

  datatype Action =
    | Look(password: string)
    | Insert(u: nat, salt: Bytes)
    | Reread(u: nat)
    | Derive(u: nat)
    | Lock

  const SHUT := Door([], [], None)

  predicate Possible(d: Door, a: Action) {
    match a
    case Insert(u, _) => u < |d.unlocks| && d.unlocks[u].Missing?
    case Reread(u) => u < |d.unlocks| && d.unlocks[u].Added?
    case Derive(u) => u < |d.unlocks| && d.unlocks[u].Known?
    case _ => true
  }

  // What a look-up comes to: getSingleOrNull throws when the table has several rows.
  function Seen(metadata: seq<VaultMetadata>, password: string): Progress {
    if metadata == [] then Missing(password)
    else if |metadata| == 1 then Known(password, metadata[0].salt)
    else Over
  }

  // An unlock that throws drops the key. An impossible action changes nothing.
  function DoorStep(kdf: Kdf, d: Door, a: Action): Door {
    if !Possible(d, a) then d
    else
      match a
      case Look(password) =>
        d.(unlocks := d.unlocks + [Seen(d.metadata, password)],
           masterKey := if |d.metadata| > 1 then None else d.masterKey)
      case Insert(u, salt) =>
        d.(metadata := d.metadata + [FreshMetadata(salt)], unlocks := d.unlocks[u := Added(d.unlocks[u].password)])
      case Reread(u) =>
        d.(unlocks := d.unlocks[u := Seen(d.metadata, d.unlocks[u].password)],
           masterKey := if |d.metadata| > 1 then None else d.masterKey)
      case Derive(u) =>
        d.(unlocks := d.unlocks[u := Over], masterKey := Some(kdf(d.unlocks[u].password, d.unlocks[u].salt)))
      case Lock => d.(masterKey := None)
  }

  function DoorRunOn(kdf: Kdf, start: Door, actions: seq<Action>): Door {
    if actions == [] then start
    else DoorStep(kdf, DoorRunOn(kdf, start, actions[..|actions| - 1]), actions[|actions| - 1])
  }

  function DoorRun(kdf: Kdf, actions: seq<Action>): Door {
    DoorRunOn(kdf, SHUT, actions)
  }

  // One unlock that nothing disturbs is UnlockVault.
  lemma UnlockInOneGo(kdf: Kdf, d: Door, password: string, salt: Bytes)
    ensures var u := |d.unlocks|;
            var e := DoorRunOn(kdf, d, [Look(password)] + [Insert(u, salt)] + [Reread(u)] + [Derive(u)]);
            && e.metadata == (if d.metadata == [] then [VaultMetadata(salt, "shared", 600)] else d.metadata)
            && e.masterKey == (if |e.metadata| == 1 then Some(kdf(password, e.metadata[0].salt)) else None)
            && e.unlocks == d.unlocks + [Over]
  {
    var u := |d.unlocks|;
    DoorSnoc(kdf, d, [], Look(password));
    assert [] + [Look(password)] == [Look(password)];
    DoorSnoc(kdf, d, [Look(password)], Insert(u, salt));
    DoorSnoc(kdf, d, [Look(password)] + [Insert(u, salt)], Reread(u));
    DoorSnoc(kdf, d, [Look(password)] + [Insert(u, salt)] + [Reread(u)], Derive(u));
  }

  lemma DoorSnoc(kdf: Kdf, d: Door, actions: seq<Action>, a: Action)
    ensures DoorRunOn(kdf, d, actions + [a]) == DoorStep(kdf, DoorRunOn(kdf, d, actions), a)
  {
    assert (actions + [a])[..|actions|] == actions;
  }

  // ----- read off the run

  // The unlocks that have added metadata, and the salts they drew, in order.
  function Inserters(kdf: Kdf, actions: seq<Action>): set<nat> {
    if actions == [] then {}
    else
      var front, a := actions[..|actions| - 1], actions[|actions| - 1];
      Inserters(kdf, front) + if a.Insert? && Possible(DoorRun(kdf, front), a) then {a.u} else {}
  }

  function Salts(kdf: Kdf, actions: seq<Action>): seq<Bytes> {
    if actions == [] then []
    else
      var front, a := actions[..|actions| - 1], actions[|actions| - 1];
      Salts(kdf, front) + if a.Insert? && Possible(DoorRun(kdf, front), a) then [a.salt] else []
  }

  // The unlocks that looked before the first of these inserts.
  function EarlyLookers(kdf: Kdf, actions: seq<Action>): set<nat> {
    if actions == [] then {}
    else
      var front, a := actions[..|actions| - 1], actions[|actions| - 1];
      EarlyLookers(kdf, front) + if a.Look? && Inserters(kdf, front) == {} then {|Passwords(front)|} else {}
  }

  // The passwords of the unlocks, in the order in which they looked.
  function Passwords(actions: seq<Action>): seq<string> {
    if actions == [] then []
    else
      var a := actions[|actions| - 1];
      Passwords(actions[..|actions| - 1]) + if a.Look? then [a.password] else []
  }

  // ----- the salts

  ghost predicate DoorOk(d: Door, passwords: seq<string>, salts: seq<Bytes>, inserters: set<nat>, early: set<nat>) {
    && |d.unlocks| == |passwords|
    && |d.metadata| == |salts| == |inserters|
    && (forall i :: 0 <= i < |salts| ==> d.metadata[i] == FreshMetadata(salts[i]))
    && inserters <= early
    && (forall u :: u in inserters ==> u < |d.unlocks| && !d.unlocks[u].Missing?)
    && (forall u :: u in early ==> u < |d.unlocks|)
    && forall u :: 0 <= u < |d.unlocks| ==>
         match d.unlocks[u]
         case Missing(password) => password == passwords[u] && u in early
         case Added(password) => password == passwords[u] && u in inserters
         case Known(password, salt) => password == passwords[u] && |salts| > 0 && salt == salts[0]
         case Over => true
  }

  lemma InsertKeeps(kdf: Kdf, d: Door, a: Action, passwords: seq<string>, salts: seq<Bytes>, inserters: set<nat>,
                    early: set<nat>)
    requires DoorOk(d, passwords, salts, inserters, early) && a.Insert? && Possible(d, a)
    ensures a.u !in inserters
    ensures DoorOk(DoorStep(kdf, d, a), passwords, salts + [a.salt], inserters + {a.u}, early)
  {
  }

  lemma LookKeeps(kdf: Kdf, d: Door, a: Action, passwords: seq<string>, salts: seq<Bytes>, inserters: set<nat>,
                  early: set<nat>)
    requires DoorOk(d, passwords, salts, inserters, early) && a.Look?
    ensures DoorOk(DoorStep(kdf, d, a), passwords + [a.password], salts, inserters,
                   early + if inserters == {} then {|passwords|} else {})
  {
    assert inserters == {} <==> d.metadata == [];
  }

  lemma OtherKeeps(kdf: Kdf, d: Door, a: Action, passwords: seq<string>, salts: seq<Bytes>, inserters: set<nat>,
                   early: set<nat>)
    requires DoorOk(d, passwords, salts, inserters, early) && !a.Look? && !(a.Insert? && Possible(d, a))
    ensures DoorOk(DoorStep(kdf, d, a), passwords, salts, inserters, early)
  {
    if a.Reread? && Possible(d, a) {
      assert a.u in inserters;
    }
  }

  ghost predicate RunOk(kdf: Kdf, actions: seq<Action>) {
    DoorOk(DoorRun(kdf, actions), Passwords(actions), Salts(kdf, actions), Inserters(kdf, actions),
           EarlyLookers(kdf, actions))
  }

  lemma ReadingsSnoc(kdf: Kdf, front: seq<Action>, a: Action)
    ensures var actions, adds := front + [a], a.Insert? && Possible(DoorRun(kdf, front), a);
            && DoorRun(kdf, actions) == DoorStep(kdf, DoorRun(kdf, front), a)
            && Passwords(actions) == Passwords(front) + (if a.Look? then [a.password] else [])
            && Salts(kdf, actions) == Salts(kdf, front) + (if adds then [a.salt] else [])
            && Inserters(kdf, actions) == Inserters(kdf, front) + (if adds then {a.u} else {})
            && EarlyLookers(kdf, actions) == EarlyLookers(kdf, front)
                 + if a.Look? && Inserters(kdf, front) == {} then {|Passwords(front)|} else {}
  {
    assert (front + [a])[..|front|] == front;
  }

  lemma StepKeeps(kdf: Kdf, d: Door, a: Action, passwords: seq<string>, salts: seq<Bytes>, inserters: set<nat>,
                  early: set<nat>)
    requires DoorOk(d, passwords, salts, inserters, early)
    ensures var adds := a.Insert? && Possible(d, a);
            DoorOk(DoorStep(kdf, d, a), passwords + (if a.Look? then [a.password] else []),
                   salts + (if adds then [a.salt] else []), inserters + (if adds then {a.u} else {}),
                   early + if a.Look? && inserters == {} then {|passwords|} else {})
  {
    assert passwords + [] == passwords && salts + [] == salts && inserters + {} == inserters && early + {} == early;
    if a.Look? {
      LookKeeps(kdf, d, a, passwords, salts, inserters, early);
    } else if a.Insert? && Possible(d, a) {
      InsertKeeps(kdf, d, a, passwords, salts, inserters, early);
    } else {
      OtherKeeps(kdf, d, a, passwords, salts, inserters, early);
    }
  }

  lemma {:induction false} DoorKeeps(kdf: Kdf, actions: seq<Action>)
    ensures RunOk(kdf, actions)
  {
    if actions != [] {
      var front, a := actions[..|actions| - 1], actions[|actions| - 1];
      DoorKeeps(kdf, front);
      ReadingsSnoc(kdf, front, a);
      assert front + [a] == actions;
      StepKeeps(kdf, DoorRun(kdf, front), a, Passwords(front), Salts(kdf, front), Inserters(kdf, front),
                EarlyLookers(kdf, front));
    }
  }

  // There are as many rows of metadata as unlocks that went on to insert, and all of these
  // had looked before the first insert.
  lemma RowsAreInserts(kdf: Kdf, actions: seq<Action>)
    ensures var d, salts := DoorRun(kdf, actions), Salts(kdf, actions);
            && |d.metadata| == |Inserters(kdf, actions)| == |salts|
            && (forall i :: 0 <= i < |salts| ==> d.metadata[i] == VaultMetadata(salts[i], "shared", 600))
            && Inserters(kdf, actions) <= EarlyLookers(kdf, actions)
  {
    DoorKeeps(kdf, actions);
  }

  lemma {:induction false} LaterLookersAreNotEarly(kdf: Kdf, actions: seq<Action>, more: seq<Action>)
    ensures Inserters(kdf, actions) <= Inserters(kdf, actions + more)
    ensures Salts(kdf, actions) <= Salts(kdf, actions + more)
    ensures Inserters(kdf, actions) != {} ==> EarlyLookers(kdf, actions + more) == EarlyLookers(kdf, actions)
    decreases |more|
  {
    if more == [] {
      assert actions + more == actions;
    } else {
      LaterLookersAreNotEarly(kdf, actions, more[..|more| - 1]);
      assert (actions + more)[..|actions + more| - 1] == actions + more[..|more| - 1];
    }
  }

  lemma Growing<T>(a: set<T>, b: set<T>)
    requires a <= b
    ensures |a| <= |b|
    ensures |a| == |b| <==> a == b
  {
    assert b == a + (b - a);
  }

  // So once there is a salt, it stays the only one iff no second unlock that had looked
  // before the first insert goes on to insert.
  lemma SaltStaysIff(kdf: Kdf, actions: seq<Action>, more: seq<Action>)
    requires |DoorRun(kdf, actions).metadata| == 1
    ensures DoorRun(kdf, actions + more).metadata == DoorRun(kdf, actions).metadata
       <==> Inserters(kdf, actions + more) == Inserters(kdf, actions)
    ensures DoorRun(kdf, actions).metadata <= DoorRun(kdf, actions + more).metadata
    ensures Inserters(kdf, actions + more) - Inserters(kdf, actions) <= EarlyLookers(kdf, actions)
  {
    DoorKeeps(kdf, actions);
    DoorKeeps(kdf, actions + more);
    LaterLookersAreNotEarly(kdf, actions, more);
    Growing(Inserters(kdf, actions), Inserters(kdf, actions + more));
  }

  // Whoever has looked in time can insert, and two that have leave two salts.
  lemma OverlappingFirstUnlocks(kdf: Kdf, password: string, other: string, salt: Bytes, otherSalt: Bytes)
    ensures DoorRun(kdf, [Look(password)] + [Look(other)] + [Insert(0, salt)] + [Insert(1, otherSalt)]).metadata
         == [VaultMetadata(salt, "shared", 600), VaultMetadata(otherSalt, "shared", 600)]
  {
    DoorSnoc(kdf, SHUT, [], Look(password));
    assert [] + [Look(password)] == [Look(password)];
    DoorSnoc(kdf, SHUT, [Look(password)], Look(other));
    DoorSnoc(kdf, SHUT, [Look(password)] + [Look(other)], Insert(0, salt));
    DoorSnoc(kdf, SHUT, [Look(password)] + [Look(other)] + [Insert(0, salt)], Insert(1, otherSalt));
  }

  // An insert adds the second salt iff there is one already at that very moment: the
  // client could look again, in one transaction with the insert.
  lemma InsertIsSecondIff(kdf: Kdf, actions: seq<Action>, u: nat, salt: Bytes)
    requires Possible(DoorRun(kdf, actions), Insert(u, salt))
    ensures |DoorRun(kdf, actions + [Insert(u, salt)]).metadata| == 1 <==> DoorRun(kdf, actions).metadata == []
  {
    DoorSnoc(kdf, SHUT, actions, Insert(u, salt));
  }

  // ----- the key

  // The key that the last decisive action left: a lock leaves none, nor does a look-up that
  // throws over several salts; an unlock that derives leaves the key of its own password
  // and the first salt there was.
  function KeyAfter(kdf: Kdf, actions: seq<Action>): Option<SecretKey> {
    if actions == [] then None
    else
      var front, a := actions[..|actions| - 1], actions[|actions| - 1];
      match a
      case Lock => None
      case Derive(u) =>
        if Possible(DoorRun(kdf, front), a) && u < |Passwords(front)| && Salts(kdf, front) != []
        then Some(kdf(Passwords(front)[u], Salts(kdf, front)[0]))
        else KeyAfter(kdf, front)
      case Look(_) => if |Salts(kdf, front)| >= 2 then None else KeyAfter(kdf, front)
      case Reread(_) =>
        if Possible(DoorRun(kdf, front), a) && |Salts(kdf, front)| >= 2 then None else KeyAfter(kdf, front)
      case Insert(_, _) => KeyAfter(kdf, front)
  }

  lemma KeyStep(kdf: Kdf, d: Door, a: Action, passwords: seq<string>, salts: seq<Bytes>, inserters: set<nat>,
                early: set<nat>)
    requires DoorOk(d, passwords, salts, inserters, early)
    ensures DoorStep(kdf, d, a).masterKey ==
      (match a
       case Lock => None
       case Derive(u) =>
         if Possible(d, a) && u < |passwords| && salts != [] then Some(kdf(passwords[u], salts[0])) else d.masterKey
       case Look(_) => if |salts| >= 2 then None else d.masterKey
       case Reread(_) => if Possible(d, a) && |salts| >= 2 then None else d.masterKey
       case Insert(_, _) => d.masterKey)
  {
  }

  // In any run, with any number of unlocks under way and of salts, that is the key.
  lemma {:induction false} KeyIsReadOff(kdf: Kdf, actions: seq<Action>)
    ensures DoorRun(kdf, actions).masterKey == KeyAfter(kdf, actions)
  {
    if actions != [] {
      var front, a := actions[..|actions| - 1], actions[|actions| - 1];
      KeyIsReadOff(kdf, front);
      DoorKeeps(kdf, front);
      KeyStep(kdf, DoorRun(kdf, front), a, Passwords(front), Salts(kdf, front), Inserters(kdf, front),
              EarlyLookers(kdf, front));
    }
  }

  // With several salts, and no unlock left that has got hold of one, nothing unlocks the
  // vault again: the salts stay, and after the first lock or look-up there is never a key.
  lemma {:induction false} TwoSaltsLockForever(kdf: Kdf, d: Door, actions: seq<Action>)
    requires |d.metadata| >= 2 && forall u :: 0 <= u < |d.unlocks| ==> !d.unlocks[u].Known?
    ensures var e := DoorRunOn(kdf, d, actions);
            && d.metadata <= e.metadata
            && (forall u :: 0 <= u < |e.unlocks| ==> !e.unlocks[u].Known?)
            && (e.masterKey.None? || e.masterKey == d.masterKey)
            && ((exists a :: a in actions && (a.Look? || a.Lock?)) ==> e.masterKey.None?)
  {
    if actions != [] {
      var front, last := actions[..|actions| - 1], actions[|actions| - 1];
      TwoSaltsLockForever(kdf, d, front);
      assert actions == front + [last];
    }
  }
}
