/** The older `*Response` classes of `pyecobee/response.py`, which
    `service.py` still names. None of them has a base class that stores
    fields: `status` is an own slot of every class that has one. Their
    constructors take no defaults, and `RuntimeReportResponse` has
    properties for only two of its eight slots. */
module LegacyResponses {
  import opened Registry

  const AuthorizeRows := [
    Entry("ecobee_pin", "ecobeePin", "six.text_type", false, true),
    Entry("code", "code", "six.text_type", false, true),
    Entry("scope", "scope", "six.text_type", false, true),
    Entry("expires_in", "expires_in", "int", false, true),
    Entry("interval", "interval", "int", false, true)]
  const AuthorizeResponse := Describe(AuthorizeRows, 5)

  const ErrorRows := [
    Entry("error", "error", "six.text_type", false, true),
    Entry("error_description", "error_description", "six.text_type", false, true),
    Entry("error_uri", "error_uri", "six.text_type", false, true)]
  const ErrorResponse := Describe(ErrorRows, 3)

  const MeterReportRows := [
    Entry("report_list", "reportList", "List[MeterReport]", false, true),
    Entry("status", "status", "Status", false, true)]
  const MeterReportResponse := Describe(MeterReportRows, 2)

  const RuntimeReportRows := [
    Entry("start_date", "startDate", "six.text_type", false, false),
    Entry("start_interval", "startInterval", "int", false, false),
    Entry("end_date", "endDate", "six.text_type", false, false),
    Entry("end_interval", "endInterval", "int", false, false),
    Entry("columns", "columns", "six.text_type", false, false),
    Entry("report_list", "reportList", "List[RuntimeReport]", false, true),
    Entry("sensor_list", "sensorList", "List[RuntimeSensorReport]", false, false),
    Entry("status", "status", "Status", false, true)]
  const RuntimeReportResponse := Describe(RuntimeReportRows, 8)

  const ThermostatRows := [
    Entry("page", "page", "Page", false, true),
    Entry("thermostat_list", "thermostatList", "List[Thermostat]", false, true),
    Entry("status", "status", "Status", false, true)]
  const ThermostatResponse := Describe(ThermostatRows, 3)

  const ThermostatSummaryRows := [
    Entry("revision_list", "revisionList", "List[six.text_type]", false, true),
    Entry("thermostat_count", "thermostatCount", "int", false, true),
    Entry("status_list", "statusList", "List[six.text_type]", false, true),
    Entry("status", "status", "Status", false, true)]
  const ThermostatSummaryResponse := Describe(ThermostatSummaryRows, 4)

  const TokensRows := [
    Entry("access_token", "access_token", "six.text_type", false, true),
    Entry("token_type", "token_type", "six.text_type", false, true),
    Entry("expires_in", "expires_in", "int", false, true),
    Entry("refresh_token", "refresh_token", "six.text_type", false, true),
    Entry("scope", "scope", "six.text_type", false, true)]
  const TokensResponse := Describe(TokensRows, 5)

  const UpdateThermostatRows := [Entry("status", "status", "Status", false, true)]
  const UpdateThermostatResponse := Describe(UpdateThermostatRows, 1)

  lemma AuthorizeResponseWellFormed()
    ensures WellFormed(AuthorizeResponse)
  {
    DescribeWellFormed(AuthorizeRows, 5);
  }

  lemma AuthorizeRowsAgree()
    ensures EntriesOk(AuthorizeRows)
  {
    RowsOkSound(AuthorizeRows);
  }

  lemma ErrorResponseWellFormed()
    ensures WellFormed(ErrorResponse)
  {
    DescribeWellFormed(ErrorRows, 3);
  }

  lemma MeterReportResponseWellFormed()
    ensures WellFormed(MeterReportResponse)
  {
    DescribeWellFormed(MeterReportRows, 2);
  }

  lemma RuntimeReportRowsAgree()
    ensures RowsOk(RuntimeReportRows)
  {
  }

  lemma RuntimeReportResponseWellFormed()
    ensures WellFormed(RuntimeReportResponse)
  {
    RuntimeReportRowsAgree();
    DescribeWellFormed(RuntimeReportRows, 8);
  }

  lemma ThermostatResponseWellFormed()
    ensures WellFormed(ThermostatResponse)
  {
    DescribeWellFormed(ThermostatRows, 3);
  }

  lemma ThermostatSummaryResponseWellFormed()
    ensures WellFormed(ThermostatSummaryResponse)
  {
    DescribeWellFormed(ThermostatSummaryRows, 4);
  }

  lemma ThermostatSummaryRowsAgree()
    ensures EntriesOk(ThermostatSummaryRows)
  {
    RowsOkSound(ThermostatSummaryRows);
  }

  lemma TokensResponseWellFormed()
    ensures WellFormed(TokensResponse)
  {
    DescribeWellFormed(TokensRows, 5);
  }

  lemma UpdateThermostatResponseWellFormed()
    ensures WellFormed(UpdateThermostatResponse)
  {
    DescribeWellFormed(UpdateThermostatRows, 1);
  }

  /** Every class's tables are well-formed. */
  lemma LegacyResponsesWellFormed()
    ensures WellFormed(AuthorizeResponse) && WellFormed(ErrorResponse)
    ensures WellFormed(MeterReportResponse) && WellFormed(RuntimeReportResponse)
    ensures WellFormed(ThermostatResponse) && WellFormed(ThermostatSummaryResponse)
    ensures WellFormed(TokensResponse) && WellFormed(UpdateThermostatResponse)
  {
    AuthorizeResponseWellFormed();
    ErrorResponseWellFormed();
    MeterReportResponseWellFormed();
    RuntimeReportResponseWellFormed();
    ThermostatResponseWellFormed();
    ThermostatSummaryResponseWellFormed();
    TokensResponseWellFormed();
    UpdateThermostatResponseWellFormed();
  }

  /** Renamed fields are held in both directions. */
  lemma PinRenamed()
    ensures Renamed(AuthorizeResponse, "ecobee_pin", "ecobeePin")
  {
    AuthorizeRowsAgree();
    DescribeRow(AuthorizeRows, 5, 0);
  }

  lemma ReportListRenamed()
    ensures Renamed(MeterReportResponse, "report_list", "reportList")
  {
    RowsOkSound(MeterReportRows);
    DescribeRow(MeterReportRows, 2, 0);
  }

  lemma StartDateRenamed()
    ensures Renamed(RuntimeReportResponse, "start_date", "startDate")
  {
    RuntimeReportRowsAgree();
    RowsOkSound(RuntimeReportRows);
    DescribeRow(RuntimeReportRows, 8, 0);
  }

  /** `UpdateThermostatResponse` stores only `status`, of type `'Status'`. */
  lemma UpdateThermostatCarriesStatus()
    ensures Fields(UpdateThermostatResponse) == ["status"]
    ensures Declares(UpdateThermostatResponse, "status", "Status")
  {
    RowsOkSound(UpdateThermostatRows);
    DescribeRow(UpdateThermostatRows, 1, 0);
    DescribeFields(UpdateThermostatRows, 1);
  }

  /** The revision and status lists of a summary are lists of strings. */
  lemma SummaryListsDeclared()
    ensures Declares(ThermostatSummaryResponse, "revision_list", "List[six.text_type]")
    ensures Declares(ThermostatSummaryResponse, "status_list", "List[six.text_type]")
  {
    ThermostatSummaryRowsAgree();
    DescribeRow(ThermostatSummaryRows, 4, 0);
    DescribeRow(ThermostatSummaryRows, 4, 2);
  }

  /** Of its eight stored fields, `RuntimeReportResponse` exposes only
      `report_list` and `status`. */
  lemma RuntimeReportGetters()
    ensures |Fields(RuntimeReportResponse)| == 8
    ensures RuntimeReportResponse.getters == {"report_list", "status"}
  {
    DescribeFields(RuntimeReportRows, 8);
  }
}
