/** The entity records of TodoService.Core/Models. */
module Models {
  import opened Wrappers

  /**
   * An entity: the identifier every persisted type has (null until assigned)
   * and the fields of the concrete type, `F`.
   */
  datatype Entity<F> = Entity(id: Option<string>, fields: F)

  /** The fields a TodoItem adds to Entity; each is a nullable string. */
  datatype TodoFields = TodoFields(name: Option<string>, description: Option<string>, category: Option<string>)

  type TodoItem = Entity<TodoFields>

  /**
   * An entity as a caller holds it: an object whose `Id` property the
   * repository overwrites when it adds the entity.
   */
  class EntityObject<F> {
    var id: Option<string>
    var fields: F

    constructor (e: Entity<F>)
      ensures Value() == e
    {
      id := e.id;
      fields := e.fields;
    }

    /** The entity's current value. */
    function Value(): (e: Entity<F>)
      reads this
      ensures e.id == id && e.fields == fields
    {
      Entity(id, fields)
    }
  }
}
