/** Termination of walks that mark what they visit. */
module Collections {

  lemma {:induction false} Smaller<T>(keys: set<T>, visited: set<T>, next: T)
    requires next in keys && next !in visited
    ensures keys - (visited + {next}) < keys - visited
  {
    assert next in keys - visited && next !in keys - (visited + {next});
  }
}
