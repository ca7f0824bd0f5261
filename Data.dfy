/**
 * The record type of the Data namespace: one public holiday as read from the
 * holiday data file. It has three public properties and no behaviour.
 */
module Data {

  import opened Wrappers

  /**
   * `dateYMD` is a `Y-m-d` string or null (None): the parser stores whatever the
   * record's "Date" entry yields, which is null when the entry is missing.
   * `state` is the record's own jurisdiction, not validated.
   */
  datatype PublicHoliday = PublicHoliday(dateYMD: Option<string>, name: string, state: string)

}
