/** `POST /api/reports`: validate the body, check that the location exists,
    then append the report. */
module ReportRoutes {
  import opened Wrappers
  import opened Http
  import Validation
  import Locations
  import Reports

  const Submitted := "Wait time report submitted successfully"

  /** The 201 body: `{ success: true, reportId, message }`. */
  datatype ReportReceipt = ReportReceipt(reportId: int, message: string)

  /** The whole handler. A report is appended exactly when the body validates
      and names an existing location; the 500 path of the handler's `catch`
      is kept, though the foreign key cannot fail once the location was found. */
  method SubmitReport(body: Validation.ReportBody, locations: Locations.LocationRepository,
    reports: Reports.ReportRepository, now: int)
    returns (r: Reply<ReportReceipt, Validation.ReportErrors>)
    requires locations.Valid() && reports.Valid()
    modifies reports
    ensures reports.Valid()
    ensures var v := Validation.ValidateReportSubmission(body);
      && (v.Invalid? ==>
            r == Failure(400, ValidationError, "Invalid report data", Some(v.errors))
            && reports.rows == old(reports.rows))
      && (v.Valid? && Locations.FindById(locations.rows, v.data.locationId).None? ==>
            r == Failure(404, LocationNotFound, "Location does not exist", None)
            && reports.rows == old(reports.rows))
      && (v.Valid? && Locations.FindById(locations.rows, v.data.locationId).Some? ==>
            var report := Reports.Report(|old(reports.rows)| + 1, v.data.locationId, v.data.waitTimeMinutes, now);
            r == Success(201, ReportReceipt(report.id, Submitted))
            && reports.rows == old(reports.rows) + [report])
  {
    var validation := Validation.ValidateReportSubmission(body);
    if validation.Invalid? {
      return Failure(400, ValidationError, "Invalid report data", Some(validation.errors));
    }
    var data := validation.data;
    var location := Locations.FindById(locations.rows, data.locationId);
    if location.None? {
      return Failure(404, LocationNotFound, "Location does not exist", None);
    }
    var created := reports.Create(data.locationId, data.waitTimeMinutes, now, locations.rows);
    r := if created.Ok? then Success(201, ReportReceipt(created.value.id, Submitted))
      else Failure(500, InternalError, "Failed to submit report", None);
  }

  /** A report accepted now enters its location's two-hour window at once and
      leaves every other location's count as it was. */
  lemma {:induction false} NewReportIsCounted(log: seq<Reports.Report>, locationId: int, waitTimeMinutes: int, now: int, other: int)
    ensures var after := log + [Reports.Report(|log| + 1, locationId, waitTimeMinutes, now)];
      && Reports.CountReports(after, locationId, Reports.DefaultHoursBack, now)
           == Reports.CountReports(log, locationId, Reports.DefaultHoursBack, now) + 1
      && (other != locationId ==>
           Reports.CountReports(after, other, Reports.DefaultHoursBack, now)
             == Reports.CountReports(log, other, Reports.DefaultHoursBack, now))
  {
    var after := log + [Reports.Report(|log| + 1, locationId, waitTimeMinutes, now)];
    assert after[..|after| - 1] == log;
  }
}
