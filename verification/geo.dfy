/**
 The location value the page stores: the coordinates reported by the
 device, spread together with the address the reverse geocoder returned.
 The numbers are float64 in the page and are never computed with here, so
 they are carried as uninterpreted reals.
 */
module Geo {

  datatype Coords = Coords(latitude: real, longitude: real, accuracy: real)

  datatype Location = Location(coords: Coords, address: string)
}
