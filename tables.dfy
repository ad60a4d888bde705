/** The three input tables, after their columns have been stripped of whitespace and
    renamed. Each table is a sequence of records in file order. */
module Tables {

  /** The identity of an offer: which component, from which supplier. The variable
      maps of the formulation are keyed by it. */
  datatype Key = Key(component: string, supplier: string)

  /** A bill-of-materials row: `Component`, `Subsystem`, `Qty/Sat`. */
  datatype BomRow = BomRow(component: string, subsystem: string, qtyPerSat: real)

  /** A supplier offer: `Components`, `Suppliers`, `Unit_Cost`, `Lead_Time_Days`, `MOQ`. */
  datatype SupplierRow = SupplierRow(
    component: string,
    supplier: string,
    unitCost: real,
    leadTimeDays: int,
    moq: real)
  {
    function OfferKey(): Key {
      Key(component, supplier)
    }
  }

  /** A program row: `Num_Satellites`, `Assembly_Start_Day`. Only the first row is read. */
  datatype ProgramRow = ProgramRow(numSatellites: int, assemblyStartDay: int)
}
