/**
  A pandas DataFrame as the validation engine sees it: an ordered sequence of
  named columns, each holding its cell values.
*/
module Tables {
  import opened Wrappers

  /** A cell value as read from a CSV file. */
  datatype Cell = Number(value: real) | Text(text: string) | Missing

  datatype Column = Column(name: string, values: seq<Cell>)

  datatype Table = Table(columns: seq<Column>)

  /** `df.columns`: the column names in table order. */
  function Names(t: Table): seq<string>
  {
    seq(|t.columns|, i requires 0 <= i < |t.columns| => t.columns[i].name)
  }

  /**
    `df[name]`: the values of the first column called `name`; None where pandas
    raises KeyError, which happens exactly when no column has that name.
  */
  function Lookup(t: Table, name: string): (r: Option<seq<Cell>>)
    ensures r.Some? <==> name in Names(t)
    ensures r.Some? ==> exists i | 0 <= i < |t.columns| :: t.columns[i] == Column(name, r.value)
  {
    assert name in Names(t) <==> exists i | 0 <= i < |t.columns| :: t.columns[i].name == name by {
      if name in Names(t) {
        var i :| 0 <= i < |Names(t)| && Names(t)[i] == name;
        assert t.columns[i].name == name;
      }
      if i :| 0 <= i < |t.columns| && t.columns[i].name == name {
        assert Names(t)[i] == name;
      }
    }
    LookupFrom(t.columns, name)
  }

  function LookupFrom(columns: seq<Column>, name: string): (r: Option<seq<Cell>>)
    ensures r.Some? <==> exists i | 0 <= i < |columns| :: columns[i].name == name
    ensures r.Some? ==> exists i | 0 <= i < |columns| :: columns[i] == Column(name, r.value)
  {
    if columns == [] then None
    else if columns[0].name == name then Some(columns[0].values)
    else
      var r := LookupFrom(columns[1..], name);
      assert forall i | 0 < i < |columns| :: columns[i] == columns[1..][i - 1];
      r
  }
}
