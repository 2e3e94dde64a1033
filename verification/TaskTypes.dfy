/** What the task manager stores about an agent. */
module TaskTypes {
  import opened Common

  datatype Capabilities = Capabilities(contextVersion: Option<nat>) {
    /** Enough for `requested`: any version will do, or at least the requested one. */
    predicate Satisfies(requested: Capabilities) {
      match requested.contextVersion
      case None => true
      case Some(version) => contextVersion.Some? && contextVersion.value >= version
    }
  }

  /** A later version does for every request an earlier one does, and nothing else is enough. */
  lemma SatisfiesExactly(has: nat, wants: nat)
    ensures Capabilities(Some(has)).Satisfies(Capabilities(Some(wants))) <==> wants <= has
    ensures !Capabilities(None).Satisfies(Capabilities(Some(wants)))
    ensures Capabilities(Some(has)).Satisfies(Capabilities(None)) && Capabilities(None).Satisfies(Capabilities(None))
  {
  }

  datatype Managed = Managed(agent: nat, caps: Capabilities)
}
