/** How the modelled Java code turns values into text with `String.format`. */
module JavaFormat {
  import opened Wrappers
  import opened Text
  import opened Exceptions
  import opened Certificates

  /** The rendering of a date by `SimpleDateFormat`. Calendar arithmetic is not
      modelled: a date is its day (or second) number, shown in decimal. */
  function DateText(t: int): (s: string)
    ensures |s| > 0
  {
    IntToString(t)
  }

  /** `DATE_FORMAT.format(date)`: a null date throws. */
  function FormatDate(t: Option<int>): (r: Result<string, Exception>)
    ensures r.Err? <==> t.None?
    ensures r.Err? ==> r.error == NullPointer
    ensures r.Ok? ==> r.value == DateText(t.value)
  {
    match t
    case None => Err(NullPointer)
    case Some(v) => Ok(DateText(v))
  }

  /** `%s` of a possibly-null string. */
  function Str(s: Option<string>): string {
    Show(s)
  }

  /** `%s` of a possibly-null status enum: its name, or "null". */
  function StatusText(s: Option<Status>): string {
    match s
    case None => "null"
    case Some(v) => StatusName(v)
  }

  /** `%d`. */
  function Num(i: int): string {
    IntToString(i)
  }
}
