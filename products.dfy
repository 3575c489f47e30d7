/** The catalog record, as the storefront, the product page and the admin
    console all declare it. Prices and ratings are exact reals here, not
    double-precision numbers. */
module Products {

  datatype Product = Product(
    id: string,
    title: string,
    description: string,
    price: real,
    image: string,
    category: string,
    rating: real,
    ratingCount: int,
    stock: int)
}
