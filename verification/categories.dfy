/** domain/categories.go: the unversioned category record and its inputs.
    Their validation is driven by struct tags of a validator library and is
    not part of this model. */
module DomainCategories {
  import opened Wrappers
  import opened GoTime
  import DomainCategory

  datatype Categories = Categories(
    id: int,
    name: string,
    description: string,
    createdAt: Time,
    updatedAt: Time)

  datatype CategoriesCreate = CategoriesCreate(name: string, description: string)

  /** A PATCH body: `None` is a field the client left out. */
  datatype CategoriesUpdate = CategoriesUpdate(name: Option<string>, description: Option<string>)

  /** `CategoriesCreate.CreateModel`: the input's texts, a zero id and zero
      timestamps. */
  function CreateModel(c: CategoriesCreate): (r: Categories)
    ensures r.name == c.name && r.description == c.description
    ensures r.id == 0 && r.createdAt == Zero && r.updatedAt == Zero
  {
    Categories(0, c.name, c.description, Zero, Zero)
  }

  /** `CategoriesUpdate.UpdateModel`: a present text overwrites only its own
      field; everything else is kept. */
  function UpdateModel(c: Categories, u: CategoriesUpdate): (r: Categories)
    ensures r.id == c.id && r.createdAt == c.createdAt && r.updatedAt == c.updatedAt
    ensures r.name == u.name.GetOr(c.name)
    ensures r.description == u.description.GetOr(c.description)
    ensures u.name.None? && u.description.None? ==> r == c
  {
    var c1 := if u.name.Some? then c.(name := u.name.value) else c;
    if u.description.Some? then c1.(description := u.description.value) else c1
  }

  /** Applying the same patch twice is applying it once. */
  lemma UpdateModelIdempotent(c: Categories, u: CategoriesUpdate)
    ensures UpdateModel(UpdateModel(c, u), u) == UpdateModel(c, u)
  {
  }

  /** The same texts from the versioned generation give a record with the
      same id, texts and timestamps. */
  lemma CreateModelAgreesWithCategory(c: CategoriesCreate)
    ensures var a := CreateModel(c);
      var b := DomainCategory.CreateModel(DomainCategory.CategoryCreate(c.name, c.description));
      a.id == b.id && a.name == b.name && a.description == b.description
      && a.createdAt == b.createdAt && a.updatedAt == b.updatedAt
  {
  }

  /** A patch that carries every field of a create input turns any stored
      record into the created one, apart from its id and timestamps. */
  lemma FullUpdateMatchesCreate(x: Categories, c: CategoriesCreate)
    ensures UpdateModel(x, CategoriesUpdate(Some(c.name), Some(c.description)))
      == CreateModel(c).(id := x.id, createdAt := x.createdAt, updatedAt := x.updatedAt)
  {
  }
}
