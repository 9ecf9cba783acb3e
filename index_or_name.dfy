/** parse_index_or_name, the argument validator shared (as two identical copies) by
    src/team_devtools/jira/create_issue.py and src/team_devtools/jira/create_aap_issue.py: an
    all-digit value is a 0-based index into the options, anything else must be one of them.
    The raised argparse.ArgumentTypeError is a Failure carrying its message. */
module IndexOrName {
  import opened Wrappers
  import opened Text

  /** The message for an all-digit value past the end of the options. */
  function IndexMessage(options: seq<string>, field: string): string {
    field + " index must be 0-" + IntToString(|options| - 1)
  }

  /** The message for any other unusable value: the index range and every option. */
  function InvalidMessage(options: seq<string>, field: string): string {
    "Invalid " + field + ". Use 0-" + IntToString(|options| - 1) + " or " + Join(options, ", ")
  }

  function ParseIndexOrName(value: string, options: seq<string>, field: string): (r: Result<string, string>)
    ensures r.Success? ==> r.value in options
    ensures IsDigits(value) ==> (r.Success? <==> DigitsValue(value) < |options|)
    ensures IsDigits(value) && r.Success? ==> r.value == options[DigitsValue(value)]
    ensures IsDigits(value) && r.Failure? ==> r.error == IndexMessage(options, field)
    ensures !IsDigits(value) ==> (r.Success? <==> value in options)
    ensures !IsDigits(value) && r.Success? ==> r.value == value
    ensures !IsDigits(value) && r.Failure? ==> r.error == InvalidMessage(options, field)
  {
    if IsDigits(value) then
      var index := DigitsValue(value);
      if 0 <= index < |options| then Success(options[index])
      else Failure(IndexMessage(options, field))
    else if value in options then Success(value)
    else Failure(InvalidMessage(options, field))
  }

  /** Every option is reachable by its index written in decimal. */
  lemma IndexSelects(options: seq<string>, field: string, i: nat)
    requires i < |options|
    ensures ParseIndexOrName(NatToString(i), options, field) == Success(options[i])
  {
    NatToStringRoundTrip(i);
  }

  /** Every option that is not all digits is reachable by its name. */
  lemma NameSelects(options: seq<string>, field: string, i: nat)
    requires i < |options| && !IsDigits(options[i])
    ensures ParseIndexOrName(options[i], options, field) == Success(options[i])
  {
  }

  /** A negative index is not an index: "-1" is rejected as invalid unless it is an option. */
  lemma NegativeIndexInvalid(options: seq<string>, field: string)
    requires "-1" !in options
    ensures ParseIndexOrName("-1", options, field) == Failure(InvalidMessage(options, field))
  {
    assert !IsDigit("-1"[0]);
  }
}
