/**
 * The ward selector and the raw-data view it filters (app.py, lines 86-93
 * and 141-145).
 */
module Wards {
  import opened Wrappers
  import opened Collections

  /** A row of the dataset: its `Ward` value and its other columns by name, as text. */
  datatype Row = Row(ward: string, cells: map<string, string>)

  /** The value `selected_ward` takes when every ward is wanted (lines 93 and 142). */
  const AllWardsSentinel: string := "All Wards"

  /** `data['Ward']`: the ward of each row, in row order. */
  function WardColumn(rows: seq<Row>): (wards: seq<string>)
    ensures |wards| == |rows| && forall i | 0 <= i < |rows| :: wards[i] == rows[i].ward
  {
    seq(|rows|, i requires 0 <= i < |rows| => rows[i].ward)
  }

  /**
   * `ward_options_display` (line 87): the translated all-wards label, then
   * `data['Ward'].unique()` unless the data is empty.
   */
  function WardOptions(allWardsText: string, rows: seq<Row>): (options: seq<string>)
    ensures |options| >= 1 && options[0] == allWardsText
    ensures rows == [] ==> options == [allWardsText]
    ensures forall w :: w in options[1..] <==> exists i | 0 <= i < |rows| :: rows[i].ward == w
    ensures NoDuplicates(options[1..])
  {
    var wards := if rows == [] then [] else Distinct(WardColumn(rows));
    assert ([allWardsText] + wards)[1..] == wards;
    assert forall w :: w in WardColumn(rows) <==> exists i | 0 <= i < |rows| :: rows[i].ward == w by {
      forall w | w in WardColumn(rows) ensures exists i | 0 <= i < |rows| :: rows[i].ward == w {
        var i :| 0 <= i < |rows| && WardColumn(rows)[i] == w;
      }
    }
    [allWardsText] + wards
  }

  /** The wards after the label appear in the order of their first row. */
  lemma WardOptionsInFirstAppearanceOrder(allWardsText: string, rows: seq<Row>)
    ensures forall i, j | 1 <= i < j < |WardOptions(allWardsText, rows)| ::
              && WardOptions(allWardsText, rows)[i] in WardColumn(rows)
              && WardOptions(allWardsText, rows)[j] in WardColumn(rows)
              && FirstIndex(WardColumn(rows), WardOptions(allWardsText, rows)[i])
                 < FirstIndex(WardColumn(rows), WardOptions(allWardsText, rows)[j])
  {
    if rows != [] {
      var options := WardOptions(allWardsText, rows);
      var wards := Distinct(WardColumn(rows));
      assert options == [allWardsText] + wards;
      DistinctFirstAppearance(WardColumn(rows));
      forall i, j | 1 <= i < j < |options|
        ensures options[i] in WardColumn(rows) && options[j] in WardColumn(rows)
        ensures FirstIndex(WardColumn(rows), options[i]) < FirstIndex(WardColumn(rows), options[j])
      {
        assert options[i] == wards[i - 1] && options[j] == wards[j - 1];
      }
    }
  }

  /** Line 93: the all-wards label becomes the sentinel; any other choice passes through. */
  function ResolveWard(choice: string, allWardsText: string): (r: string)
    ensures r == AllWardsSentinel <==> choice == allWardsText || choice == AllWardsSentinel
    ensures r != AllWardsSentinel ==> r == choice
  {
    if choice != allWardsText then choice else AllWardsSentinel
  }

  /** `data[data['Ward'] == ward]`: the rows of that ward, in their original order. */
  function FilterWard(rows: seq<Row>, ward: string): (r: seq<Row>)
    ensures forall i | 0 <= i < |r| :: r[i].ward == ward
    ensures |r| <= |rows|
  {
    if rows == [] then []
    else (if rows[0].ward == ward then [rows[0]] else []) + FilterWard(rows[1..], ward)
  }

  /** The filter keeps every row of the ward, as often as it occurs, and no other row. */
  lemma {:induction false} FilterWardCounts(rows: seq<Row>, ward: string)
    ensures forall x :: multiset(FilterWard(rows, ward))[x] == if x.ward == ward then multiset(rows)[x] else 0
  {
    if rows != [] {
      FilterWardCounts(rows[1..], ward);
      assert rows == [rows[0]] + rows[1..];
    }
  }

  /** Filtering distributes over concatenation, so it keeps the rows' relative order. */
  lemma {:induction false} FilterWardAppend(a: seq<Row>, b: seq<Row>, ward: string)
    ensures FilterWard(a + b, ward) == FilterWard(a, ward) + FilterWard(b, ward)
  {
    if a != [] {
      var head := if a[0].ward == ward then [a[0]] else [];
      assert (a + b)[0] == a[0] && (a + b)[1..] == a[1..] + b;
      assert FilterWard(a + b, ward) == head + FilterWard(a[1..] + b, ward);
      FilterWardAppend(a[1..], b, ward);
      assert FilterWard(a, ward) == head + FilterWard(a[1..], ward);
      assert head + (FilterWard(a[1..], ward) + FilterWard(b, ward))
          == (head + FilterWard(a[1..], ward)) + FilterWard(b, ward);
    } else {
      assert a + b == b && FilterWard(a, ward) == [];
    }
  }

  /** Rows that all belong to the ward are kept as they are. */
  lemma {:induction false} FilterWardKeepsMatching(rows: seq<Row>, ward: string)
    requires forall i | 0 <= i < |rows| :: rows[i].ward == ward
    ensures FilterWard(rows, ward) == rows
  {
    if rows != [] {
      FilterWardKeepsMatching(rows[1..], ward);
    }
  }

  /** Filtering a second time changes nothing. */
  lemma FilterWardIdempotent(rows: seq<Row>, ward: string)
    ensures FilterWard(FilterWard(rows, ward), ward) == FilterWard(rows, ward)
  {
    FilterWardKeepsMatching(FilterWard(rows, ward), ward);
  }

  /** The rows of some other ward are all dropped. */
  lemma {:induction false} FilterWardDropsOthers(rows: seq<Row>, ward: string)
    requires forall i | 0 <= i < |rows| :: rows[i].ward != ward
    ensures FilterWard(rows, ward) == []
  {
    if rows != [] {
      FilterWardDropsOthers(rows[1..], ward);
    }
  }

  /** The raw-data view (lines 142-145): every row for the sentinel, else the rows of that ward. */
  function RawDataView(rows: seq<Row>, selectedWard: string): (r: seq<Row>)
    ensures selectedWard == AllWardsSentinel ==> r == rows
    ensures selectedWard != AllWardsSentinel ==>
              forall x :: multiset(r)[x] == if x.ward == selectedWard then multiset(rows)[x] else 0
  {
    if selectedWard == AllWardsSentinel then rows
    else
      FilterWardCounts(rows, selectedWard);
      FilterWard(rows, selectedWard)
  }

  /**
   * Lines 86-93 and 142-145 end to end. Choosing the label shows every row;
   * choosing a ward shows exactly its rows, and at least one. A ward whose
   * name is the label or the sentinel cannot be told from "all wards", and
   * choosing it shows every row.
   */
  lemma WardChoiceView(allWardsText: string, rows: seq<Row>, k: nat)
    requires k < |WardOptions(allWardsText, rows)|
    ensures k == 0 ==> RawDataView(rows, ResolveWard(WardOptions(allWardsText, rows)[k], allWardsText)) == rows
    ensures k > 0 ==>
              var ward := WardOptions(allWardsText, rows)[k];
              var view := RawDataView(rows, ResolveWard(ward, allWardsText));
              && (ward == allWardsText || ward == AllWardsSentinel ==> view == rows)
              && (ward != allWardsText && ward != AllWardsSentinel ==> view == FilterWard(rows, ward) && view != [])
  {
    var options := WardOptions(allWardsText, rows);
    if k > 0 {
      var ward := options[k];
      assert ward in options[1..] by { assert options[1..][k - 1] == ward; }
      var i :| 0 <= i < |rows| && rows[i].ward == ward;
      if ward != allWardsText && ward != AllWardsSentinel {
        FilterWardCounts(rows, ward);
        assert multiset(rows)[rows[i]] > 0;
        assert multiset(FilterWard(rows, ward))[rows[i]] > 0;
      }
    }
  }

  /**
   * The raw-data section is only drawn when there is data and an indicator
   * column (line 132); it then shows the view of the selected ward.
   */
  function RawDataSection(rows: seq<Row>, selectedWard: string, column: Option<string>): (r: Option<seq<Row>>)
    ensures r.Some? <==> rows != [] && column.Some? && column.value != ""
    ensures r.Some? ==> r.value == RawDataView(rows, selectedWard)
  {
    if rows != [] && column.Some? && column.value != "" then Some(RawDataView(rows, selectedWard)) else None
  }
}
