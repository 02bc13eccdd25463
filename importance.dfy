/** `map_importance`: free-text priority to the numeric code of the import format. */
module Importance {
  import opened Strings

  /** Case-insensitive keyword search with a fixed priority: "high" gives "3",
      else "medium" gives "2", else "low" gives "1", else "". */
  function MapImportance(importance: string): (r: string)
    ensures r in {"3", "2", "1", ""}
    ensures r == "3" <==> Contains(Lower(importance), "high")
    ensures r == "2" <==> !Contains(Lower(importance), "high") && Contains(Lower(importance), "medium")
    ensures r == "1" <==> !Contains(Lower(importance), "high") && !Contains(Lower(importance), "medium")
                          && Contains(Lower(importance), "low")
    ensures r == "" <==> !Contains(Lower(importance), "high") && !Contains(Lower(importance), "medium")
                         && !Contains(Lower(importance), "low")
  {
    var text := Lower(importance);
    if Contains(text, "high") then "3"
    else if Contains(text, "medium") then "2"
    else if Contains(text, "low") then "1"
    else ""
  }

  /** The mapping ignores case: lower-casing the input first changes nothing. */
  lemma MapImportanceIgnoresCase(importance: string)
    ensures MapImportance(Lower(importance)) == MapImportance(importance)
  {
    LowerIdempotent(importance);
  }
}
