/**
 * How the indicator selector and the ward view meet in the main area of the
 * dashboard (app.py, lines 132-160).
 */
module Dashboard {
  import opened Wrappers
  import opened Indicators
  import opened Wards

  /**
   * With data present, the raw-data section is hidden exactly when the
   * chained lookups of lines 116-117 found no column, as the comment at line
   * 159 says: every catalogue column is a non-empty string.
   */
  lemma HiddenSectionMeansNoColumn(displayMap: map<string, string>, choice: Option<string>,
                                   rows: seq<Row>, selectedWard: string)
    requires rows != []
    ensures var column := SelectIndicator(displayMap, IndicatorColumns, choice).1;
            RawDataSection(rows, selectedWard, column).None? <==> column.None?
  {
    ColumnsNonEmpty();
  }

  /**
   * With data present and a label chosen that the display map knows, the
   * section shows the rows of the selected ward, or every row for the
   * sentinel.
   */
  lemma ShownSectionIsWardView(displayMap: map<string, string>, shown: string,
                               rows: seq<Row>, selectedWard: string)
    requires rows != [] && shown in displayMap && displayMap[shown] in IndicatorColumns
    ensures var column := SelectIndicator(displayMap, IndicatorColumns, Some(shown)).1;
            && column == Some(IndicatorColumns[displayMap[shown]])
            && RawDataSection(rows, selectedWard, column) == Some(RawDataView(rows, selectedWard))
  {
    ColumnsNonEmpty();
  }
}
