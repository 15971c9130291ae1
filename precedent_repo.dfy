/** The configurable precedent lookup (mlend/precedent_repo.py): a
    module-level slot holding an optional lookup function, replaced by
    `configure` and consulted by `get`. */
module PrecedentRepo {
  import opened Strings
  import opened Outlines

  /** A lookup from (contract type id, contract type name) to an outline. */
  type Lookup = (Option<string>, Option<string>) -> Option<RawOutline>

  class PrecedentRepository {
    var lookup: Option<Lookup>

    constructor()
      ensures lookup == None
    {
      lookup := None;
    }

    /** `configure_precedent_lookup` (precedent_repo.py:9-14): the last
        configuration wins. */
    method Configure(fn: Lookup)
      modifies this
      ensures lookup == Some(fn)
    {
      lookup := Some(fn);
    }

    /** `get_precedent_outline` (precedent_repo.py:17-31): a configured
        lookup decides alone, even when it finds nothing; otherwise the
        outline the caller already fetched is returned unchanged. */
    method GetPrecedentOutline(contractTypeId: Option<string>, contractTypeName: Option<string>,
                               dbOutline: Option<RawOutline>) returns (r: Option<RawOutline>)
      ensures lookup.Some? ==> r == lookup.value(contractTypeId, contractTypeName)
      ensures lookup.None? ==> r == dbOutline
    {
      if lookup.Some? {
        r := lookup.value(contractTypeId, contractTypeName);
      } else {
        r := dbOutline;
      }
    }
  }
}
