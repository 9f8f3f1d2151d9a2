// The route object: which report it builds, and how the summary groups.

module ProfileRoute {

  /** The two report kinds the route accepts. */
  const SummaryKind: string := "summary"
  const CallstackKind: string := "callstack"

  predicate IsReport(value: string)
  {
    value == SummaryKind || value == CallstackKind
  }

  /** What setting the report kind comes to: accepted, or refused with the
      offending value (the error the route raises names it). */
  datatype Status = Accepted | Invalid(value: string)

  class ProfileFileLogRoute {
    /** Whether the summary groups blocks by token (otherwise by category). */
    var groupByToken: bool
    /** The kind of report the route builds. */
    var report: string

    ghost predicate Valid()
      reads this
    {
      IsReport(report)
    }

    /** A fresh route builds the summary, grouped by token. */
    constructor ()
      ensures Valid()
      ensures report == SummaryKind && groupByToken
    {
      groupByToken := true;
      report := SummaryKind;
    }

    /** The kind of report the route builds: always one of the two kinds. */
    method GetReport() returns (r: string)
      requires Valid()
      ensures IsReport(r) && r == report
    {
      r := report;
    }

    /** Accepts exactly "summary" and "callstack"; any other value is refused
        and the report kind stays as it was. */
    method SetReport(value: string) returns (status: Status)
      requires Valid()
      modifies this
      ensures Valid()
      ensures status.Accepted? <==> IsReport(value)
      ensures status.Accepted? ==> report == value
      ensures status.Invalid? ==> status.value == value && report == old(report)
      ensures groupByToken == old(groupByToken)
    {
      if value == SummaryKind || value == CallstackKind {
        report := value;
        status := Accepted;
      } else {
        status := Invalid(value);
      }
    }
  }

  /** Two settings in a row leave the kind of the last accepted one. */
  method SetTwice(route: ProfileFileLogRoute, first: string, second: string) returns (r: string)
    requires route.Valid()
    modifies route
    ensures r == (if IsReport(second) then second else if IsReport(first) then first else old(route.report))
  {
    var _ := route.SetReport(first);
    var _ := route.SetReport(second);
    r := route.GetReport();
  }
}
