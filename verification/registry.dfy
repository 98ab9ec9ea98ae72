/** Adding and editing Product and Location rows. Both tables have the same
    shape and the same handlers, so one pair of operations serves both. */
module EntityRegistry {
  import opened Base
  import opened Models

  /** `add_product` / `add_location`: insert a row under a new primary key.
      A key that is already taken makes the commit fail and nothing is
      stored. The form's description text is stored as given. */
  function AddEntity(registry: Registry, id: string, name: string, description: string): (r: (Registry, Outcome))
    ensures id in registry <==> r.1 == Failed(DuplicateKey)
    ensures id !in registry <==> r.1 == Ok
    ensures r.1.Failed? ==> r.0 == registry
    ensures r.1.Ok? ==> r.0.Keys == registry.Keys + {id}
    ensures r.1.Ok? ==> r.0[id] == Entity(name, Some(description))
    ensures forall k :: k in registry ==> k in r.0 && r.0[k] == registry[k]
  {
    if id in registry then (registry, Failed(DuplicateKey))
    else (registry[id := Entity(name, Some(description))], Ok)
  }

  /** `edit_product` / `edit_location`: replace the name and description of
      an existing row; the key never changes. An unknown key is not found. */
  function EditEntity(registry: Registry, id: string, name: string, description: string): (r: (Registry, Outcome))
    ensures id !in registry <==> r.1 == Failed(NotFound)
    ensures id in registry <==> r.1 == Ok
    ensures r.1.Failed? ==> r.0 == registry
    ensures r.0.Keys == registry.Keys
    ensures r.1.Ok? ==> r.0[id] == Entity(name, Some(description))
    ensures forall k :: k in registry && k != id ==> r.0[k] == registry[k]
  {
    if id !in registry then (registry, Failed(NotFound))
    else (registry[id := Entity(name, Some(description))], Ok)
  }

  /** After a successful add or edit the display name used by every report
      is the submitted one, and every other identifier resolves as before. */
  lemma UpdateResolvesName(registry: Registry, id: string, name: string, description: string, other: string)
    requires other != id
    ensures AddEntity(registry, id, name, description).1.Ok? ==>
      && NameOf(AddEntity(registry, id, name, description).0, id) == name
      && NameOf(AddEntity(registry, id, name, description).0, other) == NameOf(registry, other)
    ensures EditEntity(registry, id, name, description).1.Ok? ==>
      && NameOf(EditEntity(registry, id, name, description).0, id) == name
      && NameOf(EditEntity(registry, id, name, description).0, other) == NameOf(registry, other)
  {
  }

  /** Submitting the same new row twice stores it once: the second insert
      clashes and leaves the registry as the first one left it. */
  lemma AddTwiceRejected(registry: Registry, id: string, name: string, description: string, name2: string, description2: string)
    ensures
      var first := AddEntity(registry, id, name, description).0;
      AddEntity(first, id, name2, description2) == (first, Failed(DuplicateKey))
  {
  }
}
