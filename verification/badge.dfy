/** The look of a status badge in the admin tables. */
module Badge {
  datatype Variant = Default | Secondary | Destructive | Outline
}
