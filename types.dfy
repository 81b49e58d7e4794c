/**
 * Record shapes of the entity cache: vendors, customers and chart-of-accounts
 * rows. Every record is its string `id` together with a payload of the
 * remaining fields; the cache only ever looks at the `id`.
 */
module Types {

  datatype Option<+T> = None | Some(value: T)

  /** A stored document: its identifier and everything else it carries. */
  datatype Record<+P> = Record(id: string, fields: P)

  /** The payload of a vendor (`Name` and the other import columns). */
  datatype VendorFields = VendorFields(
    companyId: string,
    name: string,
    contactEmail: Option<string>,
    defaultExpenseAccount: Option<string>,
    defaultExpenseAccountId: Option<string>)

  /** The payload of a customer. */
  datatype CustomerFields = CustomerFields(
    companyId: string,
    name: string,
    contactEmail: Option<string>,
    defaultRevenueAccount: Option<string>,
    defaultRevenueAccountId: Option<string>)

  /** The payload of a chart-of-accounts row, with its optional sub-account and back-links. */
  datatype ChartOfAccountFields = ChartOfAccountFields(
    companyId: string,
    accountName: string,
    accountNumber: Option<string>,
    accountType: Option<string>,
    accountDescription: Option<string>,
    subAccountName: Option<string>,
    subAccountNumber: Option<string>,
    description: Option<string>,
    defaultVendorId: Option<string>,
    defaultCustomerId: Option<string>)

  type Vendor = Record<VendorFields>
  type Customer = Record<CustomerFields>
  type ChartOfAccount = Record<ChartOfAccountFields>
}
