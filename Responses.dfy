/** The `Ecobee*Response` classes of `pyecobee/responses.py` as registry
    entries. Each class is written as its rows: one per slot (without the
    leading underscore), with the slot's `attribute_name_map` and
    `attribute_type_map` entries. The subclasses of `EcobeeStatusResponse`
    store `status` through the base constructor, so their own rows are
    followed by the base class's `status` row. Every stored field has a
    property, and only `privileges` of `EcobeeListHierarchyUsersResponse`
    has a default. */
module Responses {
  import opened Wire
  import opened Registry
  import opened Objects
  import opened Encoder

  /** The one row of `EcobeeStatusResponse`. */
  const StatusEntry := Entry("status", "status", "Status", false, true)

  /** A subclass of `EcobeeStatusResponse` whose own slots are `own`. */
  function StatusSubclass(own: seq<Entry>): Descriptor {
    Describe(own + [StatusEntry], |own|)
  }

  /** What the rows of a subclass must satisfy: they agree with each other
      and none reuses the name `status`. */
  predicate SubclassRowsOk(own: seq<Entry>) {
    RowsOk(own) && ApartFromAll(StatusEntry, own)
  }

  /** The subclass stores `status` after its own slots, declares it under
      the wire key `status` with type `'Status'`, and exposes it. */
  predicate StoresStatus(d: Descriptor) {
    d.inherited == ["status"]
    && "status" in d.nameMap && d.nameMap["status"] == "status"
    && "status" in d.typeMap && d.typeMap["status"] == "Status"
    && "status" in d.getters
  }

  lemma StatusSubclassWellFormed(own: seq<Entry>)
    requires SubclassRowsOk(own)
    ensures WellFormed(StatusSubclass(own)) && StoresStatus(StatusSubclass(own))
  {
    var rows := own + [StatusEntry];
    RowsOkAppend(own, StatusEntry);
    DescribeWellFormed(rows, |own|);
    RowsOkSound(rows);
    assert rows[|own|] == StatusEntry;
    NameMapAt(rows, |own|);
    TypeMapAt(rows, |own|);
    FlagsAt(rows, |own|);
    assert rows[|own|..] == [StatusEntry];
    assert FieldsOf([StatusEntry]) == ["status"];
  }

  const StatusRows := [StatusEntry]
  const StatusResponse := Describe(StatusRows, 1)

  const AuthorizeRows := [
    Entry("ecobee_pin", "ecobeePin", "six.text_type", false, true),
    Entry("code", "code", "six.text_type", false, true),
    Entry("scope", "scope", "six.text_type", false, true),
    Entry("expires_in", "expires_in", "int", false, true),
    Entry("interval", "interval", "int", false, true)]
  const AuthorizeResponse := Describe(AuthorizeRows, 5)

  const CreateRuntimeReportJobRows := [
    Entry("job_id", "jobId", "six.text_type", false, true),
    Entry("job_status", "jobStatus", "six.text_type", false, true)]
  const CreateRuntimeReportJobResponse := StatusSubclass(CreateRuntimeReportJobRows)

  const ErrorRows := [
    Entry("error", "error", "six.text_type", false, true),
    Entry("error_description", "error_description", "six.text_type", false, true),
    Entry("error_uri", "error_uri", "six.text_type", false, true)]
  const ErrorResponse := Describe(ErrorRows, 3)

  const GroupsRows := [Entry("groups", "groups", "List[Group]", false, true)]
  const GroupsResponse := StatusSubclass(GroupsRows)

  const IssueDemandResponsesRows := [
    Entry("demand_response_ref", "demandResponseRef", "six.text_type", false, true)]
  const IssueDemandResponsesResponse := StatusSubclass(IssueDemandResponsesRows)

  const ListDemandResponsesRows := [
    Entry("demand_response_list", "drList", "List[DemandResponse]", false, true)]
  const ListDemandResponsesResponse := StatusSubclass(ListDemandResponsesRows)

  const ListHierarchySetsRows := [Entry("sets", "sets", "List[HierarchySet]", false, true)]
  const ListHierarchySetsResponse := StatusSubclass(ListHierarchySetsRows)

  const ListHierarchyUsersRows := [
    Entry("users", "users", "List[HierarchyUser]", false, true),
    Entry("privileges", "privileges", "List[HierarchyPrivilege]", true, true)]
  const ListHierarchyUsersResponse := StatusSubclass(ListHierarchyUsersRows)

  const ListRuntimeReportJobStatusRows := [Entry("jobs", "jobs", "List[ReportJob]", false, true)]
  const ListRuntimeReportJobStatusResponse := StatusSubclass(ListRuntimeReportJobStatusRows)

  const MeterReportsRows := [Entry("report_list", "reportList", "List[MeterReport]", false, true)]
  const MeterReportsResponse := StatusSubclass(MeterReportsRows)

  const RuntimeReportsRows := [
    Entry("start_date", "startDate", "six.text_type", false, true),
    Entry("start_interval", "startInterval", "int", false, true),
    Entry("end_date", "endDate", "six.text_type", false, true),
    Entry("end_interval", "endInterval", "int", false, true),
    Entry("columns", "columns", "six.text_type", false, true),
    Entry("report_list", "reportList", "List[RuntimeReport]", false, true),
    Entry("sensor_list", "sensorList", "List[RuntimeSensorReport]", false, true)]
  const RuntimeReportsResponse := StatusSubclass(RuntimeReportsRows)

  const ThermostatRows := [
    Entry("page", "page", "Page", false, true),
    Entry("thermostat_list", "thermostatList", "List[Thermostat]", false, true)]
  const ThermostatResponse := StatusSubclass(ThermostatRows)

  const ThermostatsSummaryRows := [
    Entry("revision_list", "revisionList", "List[six.text_type]", false, true),
    Entry("thermostat_count", "thermostatCount", "int", false, true),
    Entry("status_list", "statusList", "List[six.text_type]", false, true)]
  const ThermostatsSummaryResponse := StatusSubclass(ThermostatsSummaryRows)

  const TokensRows := [
    Entry("access_token", "access_token", "six.text_type", false, true),
    Entry("token_type", "token_type", "six.text_type", false, true),
    Entry("expires_in", "expires_in", "int", false, true),
    Entry("refresh_token", "refresh_token", "six.text_type", false, true),
    Entry("scope", "scope", "six.text_type", false, true)]
  const TokensResponse := Describe(TokensRows, 5)

  /** The response classes that extend `EcobeeObject` directly. */
  const PlainTable: Registry := map[
    "EcobeeStatusResponse" := StatusResponse,
    "EcobeeAuthorizeResponse" := AuthorizeResponse,
    "EcobeeErrorResponse" := ErrorResponse,
    "EcobeeTokensResponse" := TokensResponse]

  /** The subclasses of `EcobeeStatusResponse` that answer thermostat and
      report requests. */
  const ReportTable: Registry := map[
    "EcobeeCreateRuntimeReportJobResponse" := CreateRuntimeReportJobResponse,
    "EcobeeListRuntimeReportJobStatusResponse" := ListRuntimeReportJobStatusResponse,
    "EcobeeMeterReportsResponse" := MeterReportsResponse,
    "EcobeeRuntimeReportsResponse" := RuntimeReportsResponse,
    "EcobeeThermostatResponse" := ThermostatResponse,
    "EcobeeThermostatsSummaryResponse" := ThermostatsSummaryResponse]

  /** The subclasses of `EcobeeStatusResponse` that answer group, demand
      response and hierarchy requests. */
  const ManagementTable: Registry := map[
    "EcobeeGroupsResponse" := GroupsResponse,
    "EcobeeIssueDemandResponsesResponse" := IssueDemandResponsesResponse,
    "EcobeeListDemandResponsesResponse" := ListDemandResponsesResponse,
    "EcobeeListHierarchySetsResponse" := ListHierarchySetsResponse,
    "EcobeeListHierarchyUsersResponse" := ListHierarchyUsersResponse]

  /** The response classes by name, as `utilities.py` imports them. */
  const Table: Registry := PlainTable + ReportTable + ManagementTable

  /** What own row `i` of a subclass puts into the subclass's tables. */
  lemma SubclassRow(own: seq<Entry>, i: nat)
    requires SubclassRowsOk(own) && i < |own|
    ensures var d := StatusSubclass(own);
      Renamed(d, own[i].field, own[i].wire) && Declares(d, own[i].field, own[i].typ)
      && (own[i].defaulted ==> own[i].field in d.optional)
      && (own[i].getter ==> own[i].field in d.getters)
  {
    var rows := own + [StatusEntry];
    RowsOkAppend(own, StatusEntry);
    RowsOkSound(rows);
    DescribeRow(rows, |own|, i);
    assert rows[i] == own[i];
  }

  lemma StatusResponseWellFormed()
    ensures WellFormed(StatusResponse)
  {
    DescribeWellFormed(StatusRows, 1);
  }

  lemma AuthorizeResponseWellFormed()
    ensures WellFormed(AuthorizeResponse)
  {
    DescribeWellFormed(AuthorizeRows, 5);
  }

  lemma AuthorizeRowsAgree()
    ensures EntriesOk(AuthorizeRows)
  {
    RowsOkSound(AuthorizeRows);
  }

  lemma ErrorResponseWellFormed()
    ensures WellFormed(ErrorResponse)
  {
    DescribeWellFormed(ErrorRows, 3);
  }

  lemma TokensResponseWellFormed()
    ensures WellFormed(TokensResponse)
  {
    DescribeWellFormed(TokensRows, 5);
  }

  lemma RuntimeReportsRowsAgree()
    ensures RowsOk(RuntimeReportsRows)
  {
  }

  lemma RuntimeReportsRowsApart()
    ensures ApartFromAll(StatusEntry, RuntimeReportsRows)
  {
  }

  lemma CreateRuntimeReportJobResponseWellFormed()
    ensures WellFormed(CreateRuntimeReportJobResponse) && StoresStatus(CreateRuntimeReportJobResponse)
  {
    StatusSubclassWellFormed(CreateRuntimeReportJobRows);
  }

  lemma GroupsResponseWellFormed()
    ensures WellFormed(GroupsResponse) && StoresStatus(GroupsResponse)
  {
    StatusSubclassWellFormed(GroupsRows);
  }

  lemma IssueDemandResponsesResponseWellFormed()
    ensures WellFormed(IssueDemandResponsesResponse) && StoresStatus(IssueDemandResponsesResponse)
  {
    StatusSubclassWellFormed(IssueDemandResponsesRows);
  }

  lemma ListDemandResponsesResponseWellFormed()
    ensures WellFormed(ListDemandResponsesResponse) && StoresStatus(ListDemandResponsesResponse)
  {
    StatusSubclassWellFormed(ListDemandResponsesRows);
  }

  lemma ListHierarchySetsResponseWellFormed()
    ensures WellFormed(ListHierarchySetsResponse) && StoresStatus(ListHierarchySetsResponse)
  {
    StatusSubclassWellFormed(ListHierarchySetsRows);
  }

  lemma ListHierarchyUsersResponseWellFormed()
    ensures WellFormed(ListHierarchyUsersResponse) && StoresStatus(ListHierarchyUsersResponse)
  {
    StatusSubclassWellFormed(ListHierarchyUsersRows);
  }

  lemma ListRuntimeReportJobStatusResponseWellFormed()
    ensures WellFormed(ListRuntimeReportJobStatusResponse) && StoresStatus(ListRuntimeReportJobStatusResponse)
  {
    StatusSubclassWellFormed(ListRuntimeReportJobStatusRows);
  }

  lemma MeterReportsResponseWellFormed()
    ensures WellFormed(MeterReportsResponse) && StoresStatus(MeterReportsResponse)
  {
    StatusSubclassWellFormed(MeterReportsRows);
  }

  lemma RuntimeReportsResponseWellFormed()
    ensures WellFormed(RuntimeReportsResponse) && StoresStatus(RuntimeReportsResponse)
  {
    RuntimeReportsRowsAgree();
    RuntimeReportsRowsApart();
    StatusSubclassWellFormed(RuntimeReportsRows);
  }

  lemma ThermostatResponseWellFormed()
    ensures WellFormed(ThermostatResponse) && StoresStatus(ThermostatResponse)
  {
    StatusSubclassWellFormed(ThermostatRows);
  }

  lemma ThermostatsSummaryResponseWellFormed()
    ensures WellFormed(ThermostatsSummaryResponse) && StoresStatus(ThermostatsSummaryResponse)
  {
    StatusSubclassWellFormed(ThermostatsSummaryRows);
  }

  /** The tables of the classes that extend `EcobeeObject` directly are
      well-formed. */
  lemma PlainResponsesWellFormed()
    ensures WellFormed(StatusResponse) && WellFormed(AuthorizeResponse)
    ensures WellFormed(ErrorResponse) && WellFormed(TokensResponse)
  {
    StatusResponseWellFormed();
    AuthorizeResponseWellFormed();
    ErrorResponseWellFormed();
    TokensResponseWellFormed();
  }

  /** Every report response is well-formed and stores `status`. */
  lemma ReportResponsesWellFormed()
    ensures WellFormed(CreateRuntimeReportJobResponse) && StoresStatus(CreateRuntimeReportJobResponse)
    ensures WellFormed(ListRuntimeReportJobStatusResponse) && StoresStatus(ListRuntimeReportJobStatusResponse)
    ensures WellFormed(MeterReportsResponse) && StoresStatus(MeterReportsResponse)
    ensures WellFormed(RuntimeReportsResponse) && StoresStatus(RuntimeReportsResponse)
    ensures WellFormed(ThermostatResponse) && StoresStatus(ThermostatResponse)
    ensures WellFormed(ThermostatsSummaryResponse) && StoresStatus(ThermostatsSummaryResponse)
  {
    CreateRuntimeReportJobResponseWellFormed();
    ListRuntimeReportJobStatusResponseWellFormed();
    MeterReportsResponseWellFormed();
    RuntimeReportsResponseWellFormed();
    ThermostatResponseWellFormed();
    ThermostatsSummaryResponseWellFormed();
  }

  /** Every management response is well-formed and stores `status`. */
  lemma ManagementResponsesWellFormed()
    ensures WellFormed(GroupsResponse) && StoresStatus(GroupsResponse)
    ensures WellFormed(IssueDemandResponsesResponse) && StoresStatus(IssueDemandResponsesResponse)
    ensures WellFormed(ListDemandResponsesResponse) && StoresStatus(ListDemandResponsesResponse)
    ensures WellFormed(ListHierarchySetsResponse) && StoresStatus(ListHierarchySetsResponse)
    ensures WellFormed(ListHierarchyUsersResponse) && StoresStatus(ListHierarchyUsersResponse)
  {
    GroupsResponseWellFormed();
    IssueDemandResponsesResponseWellFormed();
    ListDemandResponsesResponseWellFormed();
    ListHierarchySetsResponseWellFormed();
    ListHierarchyUsersResponseWellFormed();
  }

  /** Renamed fields are held in both directions. */
  lemma PinRenamed()
    ensures Renamed(AuthorizeResponse, "ecobee_pin", "ecobeePin")
  {
    AuthorizeRowsAgree();
    DescribeRow(AuthorizeRows, 5, 0);
  }

  lemma JobIdRenamed()
    ensures Renamed(CreateRuntimeReportJobResponse, "job_id", "jobId")
  {
    SubclassRow(CreateRuntimeReportJobRows, 0);
  }

  lemma ThermostatListRenamed()
    ensures Renamed(ThermostatResponse, "thermostat_list", "thermostatList")
  {
    SubclassRow(ThermostatRows, 1);
  }

  /** A list of domain objects is declared as `List[Thermostat]`, whose
      element name is `Thermostat`. */
  lemma ThermostatListDeclared()
    ensures Declares(ThermostatResponse, "thermostat_list", "List[Thermostat]")
    ensures IsListType("List[Thermostat]") && ElementName("List[Thermostat]") == "Thermostat"
  {
    SubclassRow(ThermostatRows, 1);
    ListTypeOf("Thermostat");
    assert "List[" + "Thermostat" + "]" == "List[Thermostat]";
  }

  /** The revision and status lists are lists of strings, declared as
      `List[six.text_type]`. */
  lemma SummaryListsDeclared()
    ensures Declares(ThermostatsSummaryResponse, "revision_list", "List[six.text_type]")
    ensures Declares(ThermostatsSummaryResponse, "status_list", "List[six.text_type]")
  {
    SubclassRow(ThermostatsSummaryRows, 0);
    SubclassRow(ThermostatsSummaryRows, 2);
  }

  lemma StringListElement()
    ensures IsListType("List[six.text_type]") && ElementName("List[six.text_type]") == "six.text_type"
  {
    ListTypeOf("six.text_type");
    assert "List[" + "six.text_type" + "]" == "List[six.text_type]";
  }

  /** `privileges` is a stored field with a default, written under its own
      name. */
  lemma PrivilegesDefaulted()
    ensures WellFormed(ListHierarchyUsersResponse)
    ensures "privileges" in ListHierarchyUsersResponse.optional
    ensures "privileges" in Fields(ListHierarchyUsersResponse)
    ensures Renamed(ListHierarchyUsersResponse, "privileges", "privileges")
  {
    SubclassRow(ListHierarchyUsersRows, 1);
    ListHierarchyUsersResponseWellFormed();
  }

  /** Built without `privileges`, a hierarchy users response holds `None`
      there, and its dictionary has no `privileges` key. */
  lemma PrivilegesOmittedWhenAbsent(reg: Registry, args: seq<Arg>)
    requires "EcobeeListHierarchyUsersResponse" in reg
    requires reg["EcobeeListHierarchyUsersResponse"] == ListHierarchyUsersResponse
    requires Construct("EcobeeListHierarchyUsersResponse", ListHierarchyUsersResponse, args).Ok?
    requires ArgValue(args, ArgumentName("privileges")).None?
    requires EncodeObject(reg, Construct("EcobeeListHierarchyUsersResponse", ListHierarchyUsersResponse, args).value).Ok?
    ensures Construct("EcobeeListHierarchyUsersResponse", ListHierarchyUsersResponse, args).value.fields["privileges"] == VNone
    ensures !HasKey(EncodeObject(reg, Construct("EcobeeListHierarchyUsersResponse", ListHierarchyUsersResponse, args).value).value,
                    "privileges")
  {
    var v := Construct("EcobeeListHierarchyUsersResponse", ListHierarchyUsersResponse, args).value;
    PrivilegesDefaulted();
    NoneFieldOmitted(reg, v, "privileges");
  }
}
