/**
 * The skills step of the wizard: a name/level form, a list of staged skills
 * with their own local ids, and the save that commits them to the store.
 */
module SkillsStep {
  import opened Wrappers
  import opened JsStrings
  import opened ResumeContext
  import opened Staging

  const EmptyForm := SkillFields("", "")

  /** The local id of the `n`-th staged skill: `pending-${n}`. */
  function PendingSkillId(n: nat): string {
    "pending-" + NatToString(n)
  }

  /** Different staging numbers give different local ids. */
  lemma PendingSkillIdInjective(a: nat, b: nat)
    ensures PendingSkillId(a) == PendingSkillId(b) <==> a == b
  {
    if PendingSkillId(a) == PendingSkillId(b) {
      assert PendingSkillId(a)[8..] == NatToString(a);
      assert PendingSkillId(b)[8..] == NatToString(b);
      NatToStringInjective(a, b);
    }
  }

  /** An entry staged by "add", under its local id. */
  type PendingSkill = Pending<SkillFields>

  predicate DistinctIds(ps: seq<PendingSkill>) {
    forall i, j :: 0 <= i < j < |ps| ==> ps[i].id != ps[j].id
  }

  /** Filtering a list with distinct ids keeps the ids distinct. */
  lemma {:induction false} RemoveKeepsDistinct(ps: seq<PendingSkill>, id: string)
    requires DistinctIds(ps)
    ensures DistinctIds(RemoveId(ps, PendingId, id))
    decreases |ps|
  {
    if ps != [] {
      var tail := ps[1..];
      assert DistinctIds(tail) by {
        forall i, j | 0 <= i < j < |tail| ensures tail[i].id != tail[j].id {
          assert tail[i] == ps[i + 1] && tail[j] == ps[j + 1];
        }
      }
      RemoveKeepsDistinct(tail, id);
      RemoveIdMembers(tail, PendingId, id);
      var rest := RemoveId(tail, PendingId, id);
      forall q | q in rest ensures q.id != ps[0].id {
        var j :| 0 <= j < |tail| && tail[j] == q;
        assert ps[j + 1] == q;
      }
      var r := RemoveId(ps, PendingId, id);
      if PendingId(ps[0]) != id {
        assert r == [ps[0]] + rest;
        forall i, j | 0 <= i < j < |r| ensures r[i].id != r[j].id {
          if i == 0 {
            assert r[j] == rest[j - 1] && r[j] in rest;
          } else {
            assert r[i] == rest[i - 1] && r[j] == rest[j - 1];
          }
        }
      } else {
        assert r == rest;
      }
    }
  }

  /** How "save" ends. */
  datatype SaveOutcome = NothingToSave | SavedAll

  class SkillsStep {
    var form: SkillFields
    var pending: seq<PendingSkill>
    var pendingIdCounter: nat
    const store: ResumeProvider

    /** Every staged skill carries `pending-${n}` for a distinct `n` below the counter, starting at 1. */
    predicate Valid()
      reads this
    {
      && pendingIdCounter >= 1
      && DistinctIds(pending)
      && forall p <- pending :: exists n: nat :: 1 <= n < pendingIdCounter && p.id == PendingSkillId(n)
    }

    constructor (store: ResumeProvider)
      ensures this.store == store && form == EmptyForm && pending == [] && pendingIdCounter == 1
      ensures Valid()
    {
      this.store := store;
      form := EmptyForm;
      pending := [];
      pendingIdCounter := 1;
    }

    /** `handleInputChange` for the name field. */
    method NameChange(v: string)
      modifies this
      ensures form == old(form).(name := v)
      ensures pending == old(pending) && pendingIdCounter == old(pendingIdCounter)
    {
      form := form.(name := v);
    }

    /** `handleInputChange` for the level field. */
    method LevelChange(v: string)
      modifies this
      ensures form == old(form).(level := v)
      ensures pending == old(pending) && pendingIdCounter == old(pendingIdCounter)
    {
      form := form.(level := v);
    }

    /**
     * `handleAddSkill`: with both fields filled in, the form is staged under
     * `pending-${counter}`, the counter goes up and the form is emptied; the
     * new local id differs from every staged one. A missing field changes nothing.
     */
    method AddSkill() returns (staged: bool)
      requires Valid()
      modifies this
      ensures Valid()
      ensures staged <==> old(form).name != "" && old(form).level != ""
      ensures staged ==>
        && pending == old(pending) + [Pending(PendingSkillId(old(pendingIdCounter)), old(form))]
        && pendingIdCounter == old(pendingIdCounter) + 1 && form == EmptyForm
        && forall p <- old(pending) :: p.id != PendingSkillId(old(pendingIdCounter))
      ensures !staged ==>
        pending == old(pending) && pendingIdCounter == old(pendingIdCounter) && form == old(form)
    {
      if form.name == "" || form.level == "" {
        return false;
      }
      var id := PendingSkillId(pendingIdCounter);
      forall p | p in pending ensures p.id != id {
        var n: nat :| 1 <= n < pendingIdCounter && p.id == PendingSkillId(n);
        PendingSkillIdInjective(n, pendingIdCounter);
      }
      var next := pending + [Pending(id, form)];
      assert DistinctIds(next) by {
        forall i, j | 0 <= i < j < |next| ensures next[i].id != next[j].id {
          if j == |pending| {
            assert next[i] in pending;
          } else {
            assert next[i] == pending[i] && next[j] == pending[j];
          }
        }
      }
      pending := next;
      pendingIdCounter := pendingIdCounter + 1;
      form := EmptyForm;
      staged := true;
    }

    /** `handleDeletePendingSkill`: drop the staged skills with that id. */
    method DeletePending(id: string)
      requires Valid()
      modifies this
      ensures Valid()
      ensures pending == RemoveId(old(pending), PendingId, id)
      ensures forall p :: p in pending <==> p in old(pending) && p.id != id
      ensures form == old(form) && pendingIdCounter == old(pendingIdCounter)
    {
      RemoveIdMembers(pending, PendingId, id);
      RemoveKeepsDistinct(pending, id);
      pending := RemoveId(pending, PendingId, id);
    }

    /** `handleDeleteSkill`: delete a saved skill from the document. */
    method DeleteSaved(id: string)
      modifies store
      ensures store.state == Reduce(old(store.state), DeleteSkill(id))
      ensures store.idCounter == old(store.idCounter)
    {
      store.DeleteSkill(id);
    }

    /**
     * `handleSave`: with nothing staged and nothing saved the step refuses;
     * otherwise every staged skill goes to the store in order, all under the
     * same counter value, and the staging list is emptied.
     */
    method Save() returns (o: SaveOutcome)
      requires Valid()
      modifies this, store
      ensures Valid()
      ensures o == NothingToSave <==> old(pending) == [] && old(store.state.skills) == []
      ensures o == NothingToSave ==>
        && store.state == old(store.state) && store.idCounter == old(store.idCounter)
        && pending == old(pending)
      ensures o == SavedAll ==>
        && store.state == old(store.state).(skills := old(store.state.skills)
             + StaleBatch(PendingFields(old(pending)), SkillWithId, old(store.idCounter)))
        && store.idCounter == old(store.idCounter) + |old(pending)|
        && pending == []
      ensures form == old(form) && pendingIdCounter == old(pendingIdCounter)
    {
      if |pending| == 0 && |store.state.skills| == 0 {
        return NothingToSave;
      }
      store.AddSkills(PendingFields(pending));
      pending := [];
      o := SavedAll;
    }
  }
}
