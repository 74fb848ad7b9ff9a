/** The product record of app/schemas/product.py. */
module Schemas {
  import opened Wrappers

  /** One scraped product: its title, its price (an exact value; the source keeps a float)
      and the path of its downloaded image. */
  datatype Product = Product(productTitle: string, productPrice: real, pathToImage: Option<string>)
}
