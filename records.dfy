/** The documents of the four collections (products, orders, tables, settings), the
    lines of an order, and the outcomes and store calls of the lifecycle operations.
    Prices and totals are integers in minor units (kuruş). */
module Records {

  /** A document identifier. The store generates `_id` values on insert; the model
      draws them from a counter (see Store.Database.nextId). */
  type Id = nat

  datatype Option<+T> = None | Some(value: T)

  /** JavaScript truthiness of an optional string: `null`, `undefined` and "" are falsy. */
  predicate Truthy(s: Option<string>)
  {
    s.Some? && s.value != ""
  }

  datatype Product = Product(name: string, category: string, price: int, stock: int,
                             image: string, createdAt: int)

  /** A line of the draft or of an order: a snapshot of the product's name and price. */
  datatype Item = Item(productId: Id, name: string, price: int, quantity: int)

  /** The stored strings 'boş' (free) and 'dolu' (occupied). */
  datatype TableStatus = Free | Occupied

  datatype Table = Table(number: int, status: TableStatus, createdAt: int)

  /** The stored strings 'active' and 'paid'. */
  datatype OrderStatus = Active | Paid

  /** An order document; `paidAt` and `cashier` are absent until payment. */
  datatype Order = Order(tableId: Id, tableNumber: int, items: seq<Item>, total: int,
                         status: OrderStatus, createdAt: int,
                         paidAt: Option<int>, cashier: Option<string>)

  datatype Settings = Settings(businessName: string, taxNumber: string, address: string,
                               taxRate: int, updatedAt: int)

  /** One constructor per error message an operation shows. */
  datatype Error =
    | NoTableSelected     // 'Lütfen önce bir masa seçin'
    | ProductNotFound     // 'Ürün bulunamadı'
    | OutOfStock          // 'Ürün stokta yok'
    | InvalidOrder        // 'Geçersiz sipariş'
    | TableNotFound       // 'Masa bulunamadı'
    | OrderInsertFailed   // 'Sipariş kaydedilirken hata oluştu'
    | TableUpdateFailed   // 'Masa durumu güncellenirken hata oluştu'
    | NoCashierSelected   // 'Lütfen önce kasiyer seçimi yapın'
    | OrdersLoadFailed    // 'Siparişler yüklenirken hata oluştu'
    | NoActiveOrder       // 'Aktif sipariş bulunamadı'
    | PaymentFailed       // 'Ödeme işlemi sırasında hata oluştu'
    | InvalidStock        // 'Geçersiz stok miktarı'
    | StockUpdateFailed   // 'Stok güncellenirken hata oluştu'
    | TableInsertFailed   // 'Masa eklenirken hata oluştu'
    | TableDeleteFailed   // 'Masa silinirken hata oluştu'

  datatype Outcome = Ok | Err(error: Error)

  /** The store calls the operations make. An operation is given the set of its calls
      that report an error (the `err` argument of the callback); the others succeed. */
  datatype Call =
    | FindProduct | FindTable | InsertOrder | UpdateTable
    | FindOrders | UpdateOrders | UpdateProduct
    | InsertTable | RemoveTable | RemoveProducts | RemoveOrders | RemoveTables
}
