/** The product record the canister returns (src/backend.d.ts). Prices are
    exact reals here; the canister's `number` is a binary float. */
module Backend {
  datatype Product = Product(
    id: nat,
    name: string,
    description: string,
    price: real,
    currency: string,
    category: string,
    imageUrl: string,
    inStock: bool)
}
