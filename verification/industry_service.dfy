/**
 * The industry store: industries with the material (dataset) ids their
 * users may use. A read by id or name either finds the row, reports that
 * there is none (PostgREST's PGRST116) or fails; the reads are inputs here.
 */
module IndustryService {
  import opened Base
  import opened Strings
  import opened Seqs

  datatype Industry = Industry(id: string, name: string, materialList: seq<string>, appId: Option<string>)

  /** `getIndustryById` / `getIndustryByName`: no row is `null`, any other error is raised. */
  function GetIndustry(read: Fetch<Industry>): (r: Result<Option<Industry>>)
    ensures read.NotFound? <==> r == Ok(None)
    ensures read.Found? <==> r.Ok? && r.value.Some?
    ensures read.Found? ==> r.value.value == read.row
    ensures read.Failed? <==> r.Err?
    ensures read.Failed? ==> r.msg == read.msg
  {
    match read
    case Found(row) => Ok(Some(row))
    case NotFound => Ok(None)
    case Failed(msg) => Err(msg)
  }

  /** The error raised when an industry id names no row. */
  function Missing(id: string): string
  {
    "行业不存在: " + id
  }

  /** What a material edit does to the store: nothing, or write the new row. */
  datatype Edit = Keep(industry: Industry) | Write(industry: Industry)

  /**
   * `addMaterialToIndustry`: a missing industry is an error; an id already
   * listed returns the industry without writing; otherwise the id is
   * appended at the end and the row written.
   */
  function AddMaterial(read: Fetch<Industry>, id: string, material: string): (r: Result<Edit>)
    ensures read.NotFound? ==> r == Err(Missing(id))
    ensures read.Failed? ==> r == Err(read.msg)
    ensures read.Found? && material in read.row.materialList ==> r == Ok(Keep(read.row))
    ensures read.Found? && material !in read.row.materialList ==>
      r == Ok(Write(read.row.(materialList := read.row.materialList + [material])))
  {
    match GetIndustry(read)
    case Err(msg) => Err(msg)
    case Ok(None) => Err(Missing(id))
    case Ok(Some(ind)) =>
      if material in ind.materialList then Ok(Keep(ind))
      else Ok(Write(ind.(materialList := ind.materialList + [material])))
  }

  /**
   * `removeMaterialFromIndustry`: a missing industry is an error; otherwise
   * every copy of the id is dropped, the rest keep their order, and the
   * row is written.
   */
  function RemoveMaterial(read: Fetch<Industry>, id: string, material: string): (r: Result<Edit>)
    ensures read.NotFound? ==> r == Err(Missing(id))
    ensures read.Failed? ==> r == Err(read.msg)
    ensures read.Found? ==> r.Ok? && r.value.Write?
    ensures read.Found? ==> r.value.industry == read.row.(materialList := r.value.industry.materialList)
    ensures read.Found? ==> material !in r.value.industry.materialList
    ensures read.Found? ==> IsSubseq(r.value.industry.materialList, read.row.materialList)
    ensures read.Found? ==> multiset(r.value.industry.materialList) == multiset(read.row.materialList)[material := 0]
    ensures read.Found? ==> forall m :: m in read.row.materialList && m != material ==> m in r.value.industry.materialList
  {
    match GetIndustry(read)
    case Err(msg) => Err(msg)
    case Ok(None) => Err(Missing(id))
    case Ok(Some(ind)) => Ok(Write(ind.(materialList := Remove(ind.materialList, material))))
  }

  /** `getIndustryMaterials`: the list, or the missing-industry error. */
  function IndustryMaterials(read: Fetch<Industry>, id: string): (r: Result<seq<string>>)
    ensures read.Found? <==> r.Ok?
    ensures read.Found? ==> r.value == read.row.materialList
    ensures read.NotFound? ==> r == Err(Missing(id))
  {
    match GetIndustry(read)
    case Err(msg) => Err(msg)
    case Ok(None) => Err(Missing(id))
    case Ok(Some(ind)) => Ok(ind.materialList)
  }

  /** `isMaterialInIndustry`: membership, and false when the industry is missing or the read fails. */
  function IsMaterialIn(read: Fetch<Industry>, material: string): (r: bool)
    ensures r <==> read.Found? && material in read.row.materialList
  {
    match GetIndustry(read)
    case Ok(Some(ind)) => material in ind.materialList
    case _ => false
  }

  /** After adding, the material is in the industry, and adding it again writes nothing. */
  lemma AddThenMember(ind: Industry, material: string)
    ensures AddMaterial(Found(ind), ind.id, material).Ok?
    ensures var after := AddMaterial(Found(ind), ind.id, material).value.industry;
      IsMaterialIn(Found(after), material)
      && AddMaterial(Found(after), ind.id, material) == Ok(Keep(after))
  {
  }

  /** After removing, the material is gone; removing what was just added gives the list back. */
  lemma RemoveUndoesAdd(ind: Industry, material: string)
    requires material !in ind.materialList
    ensures var added := AddMaterial(Found(ind), ind.id, material).value.industry;
      RemoveMaterial(Found(added), ind.id, material) == Ok(Write(ind))
  {
    RemoveAppended(ind.materialList, material);
  }

  /** The row `createIndustry` inserts. */
  datatype NewIndustry = NewIndustry(name: string, materialList: seq<string>, appId: Option<string>)

  /** `createIndustry`: the material list defaults to empty and a missing or empty app id is stored as null. */
  function CreateIndustry(name: string, materialList: Option<seq<string>>, appId: Option<string>): (r: NewIndustry)
    ensures r.name == name
    ensures materialList.None? ==> r.materialList == []
    ensures materialList.Some? ==> r.materialList == materialList.value
    ensures r.appId.None? <==> appId.None? || appId.value == ""
    ensures r.appId.Some? ==> r.appId == appId
  {
    NewIndustry(name, materialList.GetOr([]), if appId.Some? && appId.value != "" then appId else None)
  }
}
