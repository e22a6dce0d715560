/** The Column Remapper: `remap_df` keeps the columns of a table that the
    user mapped to a dashboard field and renames each to its field. A table is
    a map from column name to column; the mapping sends each dashboard field
    to the chosen column, or to nothing. */
module Remap {
  import opened Wrappers

  /** The dashboard fields, in the order the mapping sidebar lists them. */
  const REQUIRED_FIELDS: seq<string> := [
    "Vendor", "OnTimeDeliveries", "TotalDeliveries", "Defects", "TotalUnits",
    "Spend", "Compliant", "LeadTime", "Category", "Region", "Date"]

  /** Selecting columns the table does not have raises a `KeyError` that
      names them. */
  datatype RemapError = MissingColumns(names: set<string>)

  /** The fields mapped to some column. */
  function MappedFields(mapping: map<string, Option<string>>): (fs: set<string>)
    ensures forall f :: f in fs <==> f in mapping && mapping[f].Some?
  {
    set f | f in mapping && mapping[f].Some?
  }

  /** The columns some field is mapped to. */
  function SourceColumns(mapping: map<string, Option<string>>): (cs: set<string>)
    ensures forall c :: c in cs <==> exists f :: f in mapping && mapping[f] == Some(c)
  {
    set f | f in mapping && mapping[f].Some? :: mapping[f].value
  }

  /** No two fields are mapped to the same column. */
  predicate Injective(mapping: map<string, Option<string>>)
  {
    forall f, g :: f in mapping && g in mapping && f != g && mapping[f].Some? ==> mapping[f] != mapping[g]
  }

  /** `remap_df`: the mapped columns, each under its field name. */
  function RemapTable<C>(df: map<string, C>, mapping: map<string, Option<string>>): (r: Result<map<string, C>, RemapError>)
    requires Injective(mapping)
    ensures r.Failure? <==> !(SourceColumns(mapping) <= df.Keys)
    ensures r.Failure? ==> r.error.names == SourceColumns(mapping) - df.Keys && r.error.names != {}
    ensures r.Success? ==> r.value.Keys == MappedFields(mapping)
    ensures r.Success? ==> forall f :: f in r.value ==> mapping[f].value in df && r.value[f] == df[mapping[f].value]
  {
    if !(SourceColumns(mapping) <= df.Keys) then
      var c :| c in SourceColumns(mapping) && c !in df.Keys;
      assert c in SourceColumns(mapping) - df.Keys;
      Failure(MissingColumns(SourceColumns(mapping) - df.Keys))
    else
      Success(map f | f in MappedFields(mapping) :: df[mapping[f].value])
  }

  /** The field a source column was mapped to. */
  ghost function FieldOf(mapping: map<string, Option<string>>, c: string): (f: string)
    requires Injective(mapping) && c in SourceColumns(mapping)
    ensures f in mapping && mapping[f] == Some(c)
  {
    var f :| f in mapping && mapping[f] == Some(c); f
  }

  /** Renames the remapped table back to the user's column names. */
  ghost function Restore<C>(out: map<string, C>, mapping: map<string, Option<string>>): map<string, C>
    requires Injective(mapping) && MappedFields(mapping) <= out.Keys
  {
    map c | c in SourceColumns(mapping) :: out[FieldOf(mapping, c)]
  }

  /** Renaming back gives the user's table restricted to the mapped columns:
      no column is lost or confused with another. */
  lemma RemapRoundTrip<C>(df: map<string, C>, mapping: map<string, Option<string>>)
    requires Injective(mapping) && SourceColumns(mapping) <= df.Keys
    ensures RemapTable(df, mapping).Success?
    ensures Restore(RemapTable(df, mapping).value, mapping) == map c | c in SourceColumns(mapping) :: df[c]
  {
    var out := RemapTable(df, mapping).value;
    forall c | c in SourceColumns(mapping)
      ensures Restore(out, mapping)[c] == df[c]
    {
      var f := FieldOf(mapping, c);
      assert out[f] == df[mapping[f].value];
    }
  }

  /** The mapping the sidebar starts with: each field whose name is a column
      of the table is mapped to that column, the others to nothing. */
  function DefaultMapping<C>(df: map<string, C>): (m: map<string, Option<string>>)
    ensures m.Keys == set f | f in REQUIRED_FIELDS
  {
    map f | f in REQUIRED_FIELDS :: if f in df then Some(f) else None
  }

  /** With the starting mapping, remapping keeps exactly the required fields
      that the table has, unchanged. */
  lemma DefaultRemapKeepsRequiredColumns<C>(df: map<string, C>)
    ensures Injective(DefaultMapping(df))
    ensures var r := RemapTable(df, DefaultMapping(df));
      r.Success? && r.value == map f | f in REQUIRED_FIELDS && f in df :: df[f]
  {
    var m := DefaultMapping(df);
    assert SourceColumns(m) <= df.Keys by {
      forall c | c in SourceColumns(m) ensures c in df {
        var f :| f in m && m[f] == Some(c);
      }
    }
    var r := RemapTable(df, m);
    assert r.value.Keys == set f | f in REQUIRED_FIELDS && f in df;
  }
}
