/** The one-off script that hands every task, strategy and insight of user 1
    (the first admin) over to user 2. */
module Transfer {
  import opened Wrappers
  import opened Records

  const Source := 1
  const Target := 2

  predicate HasUser(users: seq<User>, id: int) {
    exists i :: 0 <= i < |users| && users[i].id == id
  }

  /** `transfer_data`: nothing happens unless both users exist; otherwise the
      three tables are re-owned and committed together. */
  function TransferData(s: Store): Store {
    if !HasUser(s.users, Source) || !HasUser(s.users, Target) then s
    else
      s.(tasks := Reown(s.tasks, Source, Some(Target)),
         strategies := Reown(s.strategies, Source, Some(Target)),
         insights := Reown(s.insights, Source, Some(Target)))
  }

  /** With both users present the source owns nothing afterwards, each of its
      rows now belongs to the target, and users and shares are untouched. */
  lemma TransferEffect(s: Store)
    requires HasUser(s.users, Source) && HasUser(s.users, Target)
    ensures var r := TransferData(s);
      r.users == s.users && r.shares == s.shares
      && Reowned(s.tasks, r.tasks, Source, Some(Target))
      && Reowned(s.strategies, r.strategies, Source, Some(Target))
      && Reowned(s.insights, r.insights, Source, Some(Target))
      && (forall i :: 0 <= i < |r.tasks| ==> r.tasks[i].owner != Some(Source))
      && (forall i :: 0 <= i < |r.strategies| ==> r.strategies[i].owner != Some(Source))
      && (forall i :: 0 <= i < |r.insights| ==> r.insights[i].owner != Some(Source))
  {
    ReownSpec(s.tasks, Source, Some(Target));
    ReownSpec(s.strategies, Source, Some(Target));
    ReownSpec(s.insights, Source, Some(Target));
  }

  /** A missing user stops the script before anything changes. */
  lemma MissingUserChangesNothing(s: Store)
    requires !HasUser(s.users, Source) || !HasUser(s.users, Target)
    ensures TransferData(s) == s
  {
  }

  /** Running the script twice is running it once. */
  lemma TransferIdempotent(s: Store)
    ensures TransferData(TransferData(s)) == TransferData(s)
  {
    if HasUser(s.users, Source) && HasUser(s.users, Target) {
      var r := TransferData(s);
      TransferEffect(s);
      assert Reown(r.tasks, Source, Some(Target)) == r.tasks;
      assert Reown(r.strategies, Source, Some(Target)) == r.strategies;
      assert Reown(r.insights, Source, Some(Target)) == r.insights;
    }
  }
}
