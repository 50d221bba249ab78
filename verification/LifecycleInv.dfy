/** Every step keeps the lifecycle invariant. */
module LifecycleInv {
  import opened Wrappers
  import opened SessionMembers
  import opened LobbyRegistry
  import opened Lifecycle

  /** Steps of one sequencer. */
  ghost predicate Sequencer(a: Action) {
    a.CheckOpen? || a.Admit? || a.Remove? || a.StopSelf? || a.Return?
  }

  ghost predicate Inside(s: State, r: Ref)
    requires r in s.lobs
  {
    LobInv(s.registry.lobbies, s.requests, s.manager, s.refused, r, s.lobs[r])
  }

  lemma SequencerStepKeepsLob(s: State, a: Action)
    requires Inv(s) && Enabled(s, a) && Sequencer(a)
    ensures Inside(Do(s, a), a.r)
  {
    assert Inside(s, a.r);
    if a.Remove? {
      RemoveKeepsLob(s, a.r, a.user);
    } else if a.Admit? {
      AdmitKeepsUnique(s.lobs[a.r]);
    }
  }

  lemma RemoveKeepsLob(s: State, r: Ref, user: UserId)
    requires Enabled(s, Remove(r, user)) && Inside(s, r)
    ensures Inside(Do(s, Remove(r, user)), r)
  {
    RemovalTakesOne(s.lobs[r].members, user);
  }

  lemma AdmitKeepsUnique(l: Lob)
    requires l.pc.Admitting? && UniqueUsers(l.members) && l.pc.session !in l.members
    ensures UniqueUsers(AfterAdmit(l).members)
  {
    if !HasUser(l.members, l.pc.member.user) {
      AdmitRefinesInsertIff(l.members, l.pc.session, l.pc.member);
    }
  }

  lemma OthersKeepInside(s: State, a: Action, r: Ref)
    requires Inv(s) && Enabled(s, a) && Sequencer(a) && r in s.lobs && r != a.r
    ensures Inside(Do(s, a), r)
  {
    assert Inside(s, r);
  }

  lemma LookupKeepsInside(s: State, a: Action, r: Ref)
    requires Inv(s) && Enabled(s, a) && a.GetOrCreate? && r in Do(s, a).lobs
    ensures Inside(Do(s, a), r)
  {
    if r in s.lobs {
      assert Inside(s, r);
    }
  }

  /** Steps of the manager under the registry lock, but for the stop. */
  ghost predicate UnderLock(a: Action) {
    a.Check? || a.Save? || a.Unregister?
  }

  lemma LockedStepKeepsInside(s: State, a: Action, r: Ref)
    requires Inv(s) && Enabled(s, a) && UnderLock(a) && r in s.lobs
    ensures Inside(Do(s, a), r)
  {
    assert Inside(s, r);
    assert Inside(s, s.manager.from);
  }

  lemma ManagerKeepsInside(s: State, a: Action, r: Ref)
    requires Inv(s) && Enabled(s, a) && !Sequencer(a) && !a.GetOrCreate? && !UnderLock(a) && r in s.lobs
    ensures r in Do(s, a).lobs && Inside(Do(s, a), r)
  {
    assert Inside(s, r);
    if !s.manager.Idle? {
      assert Inside(s, s.manager.from);
    }
  }

  lemma StepKeepsInv(s: State, a: Action)
    requires Inv(s) && Enabled(s, a)
    ensures Inv(Do(s, a))
  {
    var s' := Do(s, a);
    forall r | r in s'.lobs ensures Inside(s', r) {
      if a.GetOrCreate? {
        LookupKeepsInside(s, a, r);
      } else if UnderLock(a) {
        LockedStepKeepsInside(s, a, r);
      } else if !Sequencer(a) {
        ManagerKeepsInside(s, a, r);
      } else if r == a.r {
        SequencerStepKeepsLob(s, a);
      } else {
        OthersKeepInside(s, a, r);
      }
    }
    RegistryStaysRight(s, a);
  }

  lemma RegistryStaysRight(s: State, a: Action)
    requires Inv(s) && Enabled(s, a)
    ensures RegistryInv(Do(s, a).registry, Do(s, a).lobs, Do(s, a).manager)
  {
    if Sequencer(a) {
      IdsStayRight(s, a);
    } else if !s.manager.Idle? {
      assert Inside(s, s.manager.from);
    }
  }

  lemma IdsStayRight(s: State, a: Action)
    requires Enabled(s, a) && Sequencer(a) && RegistryInv(s.registry, s.lobs, s.manager)
    ensures RegistryInv(s.registry, Do(s, a).lobs, s.manager)
  {
    assert forall r :: r in s.lobs ==> r in Do(s, a).lobs && Do(s, a).lobs[r].id == s.lobs[r].id;
  }
}
