/**
 * The part of a Discord embed the help pages and the paginator touch: an
 * optional title, an optional footer text and the list of fields.
 */
module Embeds {
  import opened Text

  /** One embed field: a name, a value and whether it sits inline beside its neighbours. */
  datatype Field = Field(name: string, value: string, inline: bool)

  datatype Embed = Embed(title: Option<string>, footer: Option<string>, fields: seq<Field>)

  /** A fresh embed: no title, no footer, no fields. */
  const EmptyEmbed := Embed(None, None, [])
}
