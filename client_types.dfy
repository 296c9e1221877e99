/** The shapes the client works with, as client/src/types/index.ts declares them. */
module ClientTypes {
  /** An inventory item as the client receives it: the id is the document id as a string, the date a string. */
  datatype ClientItem = ClientItem(
    id: string,
    itemName: string,
    partNumber: string,
    category: string,
    workingGroup: string,
    quantity: int,
    barcode: string,
    lastUpdated: string)

  /** The working groups the client offers; the server accepts only the first two. */
  const ClientWorkingGroups: seq<string> := ["Smart Click", "F.E.", "Customs"]

  /** The categories the client's item type allows. */
  const ClientCategories: seq<string> := ["RPM", "Utility Panel", "Handheld", "Other"]

  /** What `register` sends: the form without `confirmPassword`. */
  datatype RegisterData = RegisterData(email: string, password: string, firstName: string, lastName: string, workingGroup: string)
}
