/**
 * The application's entity cache: one object holding the vendors, customers
 * and chart-of-accounts records of the active company, and the fifteen
 * actions that replace one of those lists by a new one. Each action assigns
 * exactly one field; the frame `modifies this`f` says so, and each `ensures`
 * repeats it for the reader by naming the two fields that keep their values.
 */
module Store {
  import opened Types
  import Table

  class AppState {
    var vendors: seq<Vendor>
    var customers: seq<Customer>
    var chartOfAccounts: seq<ChartOfAccount>

    /** The store starts with all three collections empty. */
    constructor ()
      ensures vendors == [] && customers == [] && chartOfAccounts == []
    {
      vendors, customers, chartOfAccounts := [], [], [];
    }

    // --- replacing a whole collection -----------------------------------

    method SetVendors(list: seq<Vendor>)
      modifies this`vendors
      ensures vendors == list
      ensures customers == old(customers) && chartOfAccounts == old(chartOfAccounts)
    {
      vendors := list;
    }

    method SetCustomers(list: seq<Customer>)
      modifies this`customers
      ensures customers == list
      ensures vendors == old(vendors) && chartOfAccounts == old(chartOfAccounts)
    {
      customers := list;
    }

    method SetChartOfAccounts(list: seq<ChartOfAccount>)
      modifies this`chartOfAccounts
      ensures chartOfAccounts == list
      ensures vendors == old(vendors) && customers == old(customers)
    {
      chartOfAccounts := list;
    }

    // --- appending one record -------------------------------------------

    method AddVendor(vendor: Vendor)
      modifies this`vendors
      ensures vendors == Table.Append(old(vendors), vendor)
      ensures |vendors| == |old(vendors)| + 1 && vendors[..|old(vendors)|] == old(vendors)
      ensures customers == old(customers) && chartOfAccounts == old(chartOfAccounts)
    {
      vendors := Table.Append(vendors, vendor);
    }

    method AddCustomer(customer: Customer)
      modifies this`customers
      ensures customers == Table.Append(old(customers), customer)
      ensures |customers| == |old(customers)| + 1 && customers[..|old(customers)|] == old(customers)
      ensures vendors == old(vendors) && chartOfAccounts == old(chartOfAccounts)
    {
      customers := Table.Append(customers, customer);
    }

    method AddChartOfAccount(account: ChartOfAccount)
      modifies this`chartOfAccounts
      ensures chartOfAccounts == Table.Append(old(chartOfAccounts), account)
      ensures |chartOfAccounts| == |old(chartOfAccounts)| + 1
      ensures chartOfAccounts[..|old(chartOfAccounts)|] == old(chartOfAccounts)
      ensures vendors == old(vendors) && customers == old(customers)
    {
      chartOfAccounts := Table.Append(chartOfAccounts, account);
    }

    // --- replacing the records with a given id --------------------------

    method UpdateVendor(updated: Vendor)
      modifies this`vendors
      ensures vendors == Table.Update(old(vendors), updated)
      ensures |vendors| == |old(vendors)|
      ensures forall i :: 0 <= i < |vendors| ==>
                vendors[i] == if old(vendors)[i].id == updated.id then updated else old(vendors)[i]
      ensures customers == old(customers) && chartOfAccounts == old(chartOfAccounts)
    {
      vendors := Table.Update(vendors, updated);
    }

    method UpdateCustomer(updated: Customer)
      modifies this`customers
      ensures customers == Table.Update(old(customers), updated)
      ensures |customers| == |old(customers)|
      ensures forall i :: 0 <= i < |customers| ==>
                customers[i] == if old(customers)[i].id == updated.id then updated else old(customers)[i]
      ensures vendors == old(vendors) && chartOfAccounts == old(chartOfAccounts)
    {
      customers := Table.Update(customers, updated);
    }

    method UpdateChartOfAccount(updated: ChartOfAccount)
      modifies this`chartOfAccounts
      ensures chartOfAccounts == Table.Update(old(chartOfAccounts), updated)
      ensures |chartOfAccounts| == |old(chartOfAccounts)|
      ensures forall i :: 0 <= i < |chartOfAccounts| ==>
                chartOfAccounts[i]
                == if old(chartOfAccounts)[i].id == updated.id then updated else old(chartOfAccounts)[i]
      ensures vendors == old(vendors) && customers == old(customers)
    {
      chartOfAccounts := Table.Update(chartOfAccounts, updated);
    }

    // --- removing one id ------------------------------------------------

    method RemoveVendor(vendorId: string)
      modifies this`vendors
      ensures vendors == Table.RemoveById(old(vendors), vendorId)
      ensures Table.NoneWithId(vendors, vendorId) && |vendors| <= |old(vendors)|
      ensures customers == old(customers) && chartOfAccounts == old(chartOfAccounts)
    {
      vendors := Table.RemoveById(vendors, vendorId);
    }

    method RemoveCustomer(customerId: string)
      modifies this`customers
      ensures customers == Table.RemoveById(old(customers), customerId)
      ensures Table.NoneWithId(customers, customerId) && |customers| <= |old(customers)|
      ensures vendors == old(vendors) && chartOfAccounts == old(chartOfAccounts)
    {
      customers := Table.RemoveById(customers, customerId);
    }

    method RemoveChartOfAccount(accountId: string)
      modifies this`chartOfAccounts
      ensures chartOfAccounts == Table.RemoveById(old(chartOfAccounts), accountId)
      ensures Table.NoneWithId(chartOfAccounts, accountId) && |chartOfAccounts| <= |old(chartOfAccounts)|
      ensures vendors == old(vendors) && customers == old(customers)
    {
      chartOfAccounts := Table.RemoveById(chartOfAccounts, accountId);
    }

    // --- removing a list of ids -----------------------------------------

    method RemoveVendors(vendorIds: seq<string>)
      modifies this`vendors
      ensures vendors == Table.RemoveByIds(old(vendors), vendorIds)
      ensures forall i :: 0 <= i < |vendors| ==> vendors[i].id !in vendorIds
      ensures customers == old(customers) && chartOfAccounts == old(chartOfAccounts)
    {
      vendors := Table.RemoveByIds(vendors, vendorIds);
    }

    method RemoveCustomers(customerIds: seq<string>)
      modifies this`customers
      ensures customers == Table.RemoveByIds(old(customers), customerIds)
      ensures forall i :: 0 <= i < |customers| ==> customers[i].id !in customerIds
      ensures vendors == old(vendors) && chartOfAccounts == old(chartOfAccounts)
    {
      customers := Table.RemoveByIds(customers, customerIds);
    }

    method RemoveChartOfAccounts(accountIds: seq<string>)
      modifies this`chartOfAccounts
      ensures chartOfAccounts == Table.RemoveByIds(old(chartOfAccounts), accountIds)
      ensures forall i :: 0 <= i < |chartOfAccounts| ==> chartOfAccounts[i].id !in accountIds
      ensures vendors == old(vendors) && customers == old(customers)
    {
      chartOfAccounts := Table.RemoveByIds(chartOfAccounts, accountIds);
    }
  }
}
