/**
 * The column schema: the fixed rename table `udf_cols`, whose `'Job No.'`
 * entry is overwritten at run time by the configured key column name, and
 * `DataFrame.rename(columns=...)` applied with it to a header list.
 */
module Schema {
  import opened Text

  /** The raw header whose target is supplied at run time. */
  const JobNo: string := "Job No."

  /** The one raw header that is already in canonical form and maps to itself. */
  const CarrEqpUid: string := "carr_eqp_uid"

  // `udf_cols` as written, before the key override: its entries in source
  // order, declared in consecutive runs of ten so that the facts about them
  // can be established run by run.
  const UdfEntries1: seq<(string, string)> := [
    ("Job No.", "key_col_placeholder"),
    ("carr_eqp_uid", "carr_eqp_uid"),
    ("Container Number", "container_number"),
    ("Container Type", "container_type"),
    ("Destination Service", "destination_service"),
    ("Consignee Code (Multiple)", "consignee_code_multiple"),
    ("PO Number (Multiple)", "po_number_multiple"),
    ("Booking Number (Multiple)", "booking_number_multiple"),
    ("FCR Number (Multiple)", "fcr_number_multiple"),
    ("Ocean BL No (Multiple)", "ocean_bl_no_multiple")
  ]

  const UdfEntries2: seq<(string, string)> := [
    ("Load Port", "load_port"),
    ("Final Load Port", "final_load_port"),
    ("Discharge Port", "discharge_port"),
    ("Last CY Location", "last_cy_location"),
    ("Place of Receipt", "place_of_receipt"),
    ("Place of Delivery", "place_of_delivery"),
    ("Final Destination", "final_destination"),
    ("First Vessel Code", "first_vessel_code"),
    ("First Vessel Name", "first_vessel_name"),
    ("First Voyage code", "first_voyage_code")
  ]

  const UdfEntries3: seq<(string, string)> := [
    ("Final Carrier Code", "final_carrier_code"),
    ("Final Carrier SCAC Code", "final_carrier_scac_code"),
    ("Final Carrier Name", "final_carrier_name"),
    ("Final Vessel Code", "final_vessel_code"),
    ("Final Vessel Name", "final_vessel_name"),
    ("Final Voyage code", "final_voyage_code"),
    ("True Carrier Code", "true_carrier_code"),
    ("True Carrier SCAC Code", "true_carrier_scac_code"),
    ("True Carrier SCAC Name", "true_carrier_scac_name"),
    ("ETD LP", "etd_lp")
  ]

  const UdfEntries4: seq<(string, string)> := [
    ("ETD FLP", "etd_flp"),
    ("ETA DP", "eta_dp"),
    ("ETA FD", "eta_fd"),
    ("Revised ETA", "revised_eta"),
    ("Predictive ETA", "predictive_eta"),
    ("ATD LP", "atd_lp"),
    ("ATA FLP", "ata_flp"),
    ("ATD FLP", "atd_flp"),
    ("ATA DP", "ata_dp"),
    ("Derived ATA DP", "derived_ata_dp")
  ]

  const UdfEntries5: seq<(string, string)> := [
    ("Revised ETA FD", "revised_eta_fd"),
    ("Predictive ETA FD", "predictive_eta_fd"),
    ("Cargo Received Date (Multiple)", "cargo_received_date_multiple"),
    ("Detention Free Days", "detention_free_days"),
    ("Demurrage Free Days", "demurrage_free_days"),
    ("Hot Container Flag", "hot_container_flag"),
    ("Supplier/Vendor Name", "supplier_vendor_name"),
    ("Manufacturer Name", "manufacturer_name"),
    ("Ship To Party Name", "ship_to_party_name"),
    ("Booking Approval Status", "booking_approval_status")
  ]

  const UdfEntries6: seq<(string, string)> := [
    ("Service Contract Number", "service_contract_number"),
    ("CARRIER VEHICLE LOAD Date", "carrier_vehicle_load_date"),
    ("Carrier Vehicle Load Lcn", "carrier_vehicle_load_lcn"),
    ("Vehicle Departure Date", "vehicle_departure_date"),
    ("Vehicle Departure Lcn", "vehicle_departure_lcn"),
    ("Vehicle Arrival Date", "vehicle_arrival_date"),
    ("Vehicle Arrival Lcn", "vehicle_arrival_lcn"),
    ("Carrier Vehicle Unload Date", "carrier_vehicle_unload_date"),
    ("Carrier Vehicle Unload Lcn", "carrier_vehicle_unload_lcn"),
    ("Out Gate Date From DP", "out_gate_date_from_dp")
  ]

  const UdfEntries7: seq<(string, string)> := [
    ("Out Gate Location", "out_gate_location"),
    ("Equipment Arrived at Last CY", "equipment_arrived_at_last_cy"),
    ("Equipment Arrival at Last Lcn", "equipment_arrival_at_last_lcn"),
    ("Out gate at Last CY", "out_gate_at_last_cy"),
    ("Out gate at Last CY Lcn", "out_gate_at_last_cy_lcn"),
    ("Delivery Date To Consignee", "delivery_date_to_consignee"),
    ("Delivery Date To Consignee Lcn", "delivery_date_to_consignee_lcn"),
    ("Empty Container Return Date", "empty_container_return_date"),
    ("Empty Container Return Lcn", "empty_container_return_lcn"),
    ("Late Booking Status", "late_booking_status")
  ]

  const UdfEntries8: seq<(string, string)> := [
    ("Current Departure status", "current_departure_status"),
    ("Current Arrival status", "current_arrival_status"),
    ("Late Arrival status", "late_arrival_status"),
    ("Late Container Return status", "late_container_return_status"),
    ("CO2 Emission For Tank On Wheel", "co2_emission_for_tank_on_wheel"),
    ("CO2 Emission For Well To Wheel", "co2_emission_for_well_to_wheel"),
    ("Job Type", "job_type"),
    ("MCS HBL", "mcs_hbl"),
    ("Transport Mode", "transport_mode")
  ]

  const UdfEntries: seq<(string, string)> :=
    UdfEntries1 + UdfEntries2 + UdfEntries3 + UdfEntries4 + UdfEntries5 + UdfEntries6 + UdfEntries7 + UdfEntries8

  /** A dict display: each entry in turn, a later one for the same key replacing an earlier one. */
  function MapOf(entries: seq<(string, string)>): (m: map<string, string>)
    ensures forall i :: 0 <= i < |entries| ==> entries[i].0 in m
    ensures forall h :: h in m ==> exists i :: 0 <= i < |entries| && entries[i] == (h, m[h])
  {
    if entries == [] then map[]
    else
      var last := entries[|entries| - 1];
      var m := MapOf(entries[..|entries| - 1])[last.0 := last.1];
      assert forall i :: 0 <= i < |entries| - 1 ==> entries[..|entries| - 1][i] == entries[i];
      m
  }

  /** `udf_cols`. */
  const UdfCols: map<string, string> := MapOf(UdfEntries)

  /** The six flag columns of the boolean mapping, by their canonical names. */
  const BoolCols: seq<string> := [
    "hot_container_flag", "late_booking_status", "current_departure_status",
    "current_arrival_status", "late_arrival_status", "late_container_return_status"
  ]

  /** A name starts like a canonical column name: with a lower-case letter. */
  predicate StartsLower(s: string) { |s| > 0 && IsLower(s[0]) }

  /** A name starts like a raw export header: with an upper-case letter. */
  predicate StartsUpper(s: string) { |s| > 0 && 'A' <= s[0] <= 'Z' }

  /** What makes renaming idempotent: every target starts with a lower-case
      letter, every raw header but `carr_eqp_uid` with an upper-case one, and
      `carr_eqp_uid` maps to itself. */
  ghost predicate Shaped(table: map<string, string>) {
    && (forall h :: h in table ==> StartsLower(table[h]))
    && (forall h :: h in table && h != CarrEqpUid ==> StartsUpper(h))
    && (CarrEqpUid in table ==> table[CarrEqpUid] == CarrEqpUid)
  }

  /** One entry keeps the shape: a canonical target, and a raw header unless it is `carr_eqp_uid` mapped to itself. */
  predicate EntryShaped(e: (string, string)) {
    && StartsLower(e.1)
    && (e.0 == CarrEqpUid ==> e.1 == CarrEqpUid)
    && (e.0 != CarrEqpUid ==> StartsUpper(e.0))
  }

  /** A dict display whose entries all keep the shape builds a shaped table. */
  lemma EntriesShaped(entries: seq<(string, string)>)
    requires AllShaped(entries)
    ensures Shaped(MapOf(entries))
  {
    var m := MapOf(entries);
    forall h | h in m
      ensures StartsLower(m[h]) && (h != CarrEqpUid ==> StartsUpper(h)) && (h == CarrEqpUid ==> m[h] == CarrEqpUid)
    {
      var i :| 0 <= i < |entries| && entries[i] == (h, m[h]);
      assert EntryShaped(entries[i]);
    }
  }

  /** Every entry of `entries` keeps the shape. */
  predicate AllShaped(entries: seq<(string, string)>) {
    forall i :: 0 <= i < |entries| ==> EntryShaped(entries[i])
  }

  lemma AllShapedAppend(a: seq<(string, string)>, b: seq<(string, string)>)
    requires AllShaped(a) && AllShaped(b)
    ensures AllShaped(a + b)
  {
    assert forall i :: |a| <= i < |a + b| ==> (a + b)[i] == b[i - |a|];
  }

  lemma AllShapedJoin(e1: seq<(string, string)>, e2: seq<(string, string)>, e3: seq<(string, string)>, e4: seq<(string, string)>,
                       e5: seq<(string, string)>, e6: seq<(string, string)>, e7: seq<(string, string)>, e8: seq<(string, string)>)
    requires AllShaped(e1) && AllShaped(e2) && AllShaped(e3) && AllShaped(e4)
    requires AllShaped(e5) && AllShaped(e6) && AllShaped(e7) && AllShaped(e8)
    ensures AllShaped(e1 + e2 + e3 + e4 + e5 + e6 + e7 + e8)
  {
    AllShapedAppend(e1, e2);
    AllShapedAppend(e1 + e2, e3);
    AllShapedAppend(e1 + e2 + e3, e4);
    AllShapedAppend(e1 + e2 + e3 + e4, e5);
    AllShapedAppend(e1 + e2 + e3 + e4 + e5, e6);
    AllShapedAppend(e1 + e2 + e3 + e4 + e5 + e6, e7);
    AllShapedAppend(e1 + e2 + e3 + e4 + e5 + e6 + e7, e8);
  }

  lemma Entries1Shaped()
    ensures AllShaped(UdfEntries1)
  {
  }

  lemma Entries2Shaped()
    ensures AllShaped(UdfEntries2)
  {
  }

  lemma Entries3Shaped()
    ensures AllShaped(UdfEntries3)
  {
  }

  lemma Entries4Shaped()
    ensures AllShaped(UdfEntries4)
  {
  }

  lemma Entries5Shaped()
    ensures AllShaped(UdfEntries5)
  {
  }

  lemma Entries6Shaped()
    ensures AllShaped(UdfEntries6)
  {
  }

  lemma Entries7Shaped()
    ensures AllShaped(UdfEntries7)
  {
  }

  lemma Entries8Shaped()
    ensures AllShaped(UdfEntries8)
  {
  }

  /** Every target of the table starts with a lower-case letter, every raw
      header except `carr_eqp_uid` with an upper-case one, and `carr_eqp_uid`
      maps to itself. */
  lemma TableShape()
    ensures Shaped(UdfCols) && CarrEqpUid in UdfCols
  {
    EntriesJoinedShaped();
    EntriesShaped(UdfEntries);
    CarrEqpUidListed();
  }

  lemma EntriesJoinedShaped()
    ensures AllShaped(UdfEntries)
  {
    Entries1Shaped();
    Entries2Shaped();
    Entries3Shaped();
    Entries4Shaped();
    Entries5Shaped();
    Entries6Shaped();
    Entries7Shaped();
    Entries8Shaped();
    AllShapedJoin(UdfEntries1, UdfEntries2, UdfEntries3, UdfEntries4, UdfEntries5, UdfEntries6, UdfEntries7, UdfEntries8);
  }

  lemma CarrEqpUidListed()
    ensures CarrEqpUid in UdfCols
  {
    assert UdfEntries[1] == UdfEntries1[1];
  }


  /** `udf_cols[JobNo] = key_col_original`: the table with its override slot filled. */
  function Override(table: map<string, string>, keyCol: string): (m: map<string, string>)
    ensures m.Keys == table.Keys + {JobNo}
    ensures m[JobNo] == keyCol
    ensures forall h :: h in table && h != JobNo ==> m[h] == table[h]
  {
    table[JobNo := keyCol]
  }

  /** The schema of one run: `udf_cols` with `'Job No.'` sent to the configured key name. */
  function RunSchema(keyCol: string): map<string, string> {
    Override(UdfCols, keyCol)
  }

  /** The label `rename(columns=mapping)` gives one header: its entry, or itself. */
  function RenameHeader(h: string, mapping: map<string, string>): (r: string)
    ensures h in mapping ==> r == mapping[h]
    ensures h !in mapping ==> r == h
  {
    if h in mapping then mapping[h] else h
  }

  /** `rename(columns=mapping)` on a header list: position by position, nothing dropped. */
  function RenameHeaders(cols: seq<string>, mapping: map<string, string>): (r: seq<string>)
    ensures |r| == |cols|
    ensures forall i :: 0 <= i < |cols| ==> r[i] == RenameHeader(cols[i], mapping)
  {
    seq(|cols|, i requires 0 <= i < |cols| => RenameHeader(cols[i], mapping))
  }

  /** The configured key name is not a raw header that the table sends elsewhere. */
  predicate KeyColStable(table: map<string, string>, keyCol: string) {
    keyCol == JobNo || keyCol !in table || table[keyCol] == keyCol
  }

  /** A key name in canonical (lower-case) style is always stable. */
  lemma CanonicalKeyColStable(table: map<string, string>, keyCol: string)
    requires Shaped(table) && StartsLower(keyCol)
    ensures KeyColStable(table, keyCol)
  {
  }

  /** Renaming a renamed header once more changes nothing. */
  lemma RenameHeaderIdempotent(table: map<string, string>, keyCol: string, h: string)
    requires Shaped(table) && KeyColStable(table, keyCol)
    ensures var m := Override(table, keyCol);
            RenameHeader(RenameHeader(h, m), m) == RenameHeader(h, m)
  {
    var m := Override(table, keyCol);
    assert StartsUpper(JobNo);
    if h in table && h != JobNo {
      var t := table[h];
      assert StartsLower(t);
    }
  }

  /** With a stable key name, renaming is idempotent on every header list. */
  lemma RenameIdempotent(table: map<string, string>, keyCol: string, cols: seq<string>)
    requires Shaped(table) && KeyColStable(table, keyCol)
    ensures var m := Override(table, keyCol);
            RenameHeaders(RenameHeaders(cols, m), m) == RenameHeaders(cols, m)
  {
    var m := Override(table, keyCol);
    var once := RenameHeaders(cols, m);
    forall i | 0 <= i < |cols|
      ensures RenameHeader(once[i], m) == once[i]
    {
      RenameHeaderIdempotent(table, keyCol, cols[i]);
    }
  }

  /** With any other key name, renaming `['Job No.']` twice differs from renaming it once. */
  lemma RenameNotIdempotent(table: map<string, string>, keyCol: string)
    requires !KeyColStable(table, keyCol)
    ensures var m := Override(table, keyCol);
            RenameHeaders(RenameHeaders([JobNo], m), m) != RenameHeaders([JobNo], m)
  {
    var m := Override(table, keyCol);
    assert RenameHeaders([JobNo], m)[0] == keyCol;
    assert RenameHeaders([keyCol], m)[0] == table[keyCol];
  }

  /** The run schema renames idempotently exactly when the key name is stable. */
  lemma RunSchemaIdempotent(keyCol: string, cols: seq<string>)
    requires KeyColStable(UdfCols, keyCol)
    ensures RenameHeaders(RenameHeaders(cols, RunSchema(keyCol)), RunSchema(keyCol)) == RenameHeaders(cols, RunSchema(keyCol))
  {
    TableShape();
    RenameIdempotent(UdfCols, keyCol, cols);
  }

  /** `'Job No.'` is one of the raw headers of `udf_cols`. */
  lemma JobNoInTable()
    ensures JobNo in UdfCols
  {
    assert UdfEntries[0] == UdfEntries1[0];
  }

  /** `table` is `udf_cols` up to the value of its override slot, as the
      module-level dictionary is after any number of runs. */
  predicate AgreesOffKey(table: map<string, string>) {
    table.Keys == UdfCols.Keys && forall h :: h in table && h != JobNo ==> table[h] == UdfCols[h]
  }

  /** Whatever key an earlier run left in the slot, this run's override gives this
      run's schema. */
  lemma OverrideAnyRun(table: map<string, string>, keyCol: string)
    requires AgreesOffKey(table)
    ensures Override(table, keyCol) == RunSchema(keyCol)
  {
    var mine := Override(table, keyCol);
    var asWritten := RunSchema(keyCol);
    assert mine.Keys == asWritten.Keys;
    assert forall h :: h in mine ==> mine[h] == asWritten[h];
  }

  /** After the override the dictionary still agrees with `udf_cols` off the slot. */
  lemma OverrideKeepsAgreement(table: map<string, string>, keyCol: string)
    requires AgreesOffKey(table)
    ensures AgreesOffKey(Override(table, keyCol))
  {
    JobNoInTable();
  }


  /** The module-level dictionary `udf_cols`, whose override slot each run assigns in place. */
  class HeaderTable {
    var cols: map<string, string>

    constructor ()
      ensures cols == UdfCols
    {
      cols := UdfCols;
    }

    /** `udf_cols['Job No.'] = key_col_original`. */
    method SetKey(keyCol: string)
      modifies this
      ensures cols == Override(old(cols), keyCol)
    {
      cols := cols[JobNo := keyCol];
    }
  }
}
