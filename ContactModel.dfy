/**
 * The `Contact` record of the contact-book package (036/models/contact.py)
 * and its dictionary form.  The dictionary is modelled as a map from keys to
 * text; the creation timestamp is the text the clock gives, a parameter.
 */
module ContactModel {
  import opened Wrappers

  datatype Contact = Contact(name: string, phone: string, email: string, address: string,
                             category: string, createdAt: string)

  /** The category a contact gets when none is given. */
  const DefaultCategory: string := "General"

  /** `Contact(name, phone, email, address, category)` at clock reading `now`. */
  function NewContact(name: string, phone: string, email: string, address: string,
                      category: Option<string>, now: string): (c: Contact)
    ensures c.name == name && c.phone == phone && c.email == email && c.address == address
    ensures c.category == (if category.Some? then category.value else DefaultCategory)
    ensures c.createdAt == now
  {
    Contact(name, phone, email, address, if category.Some? then category.value else DefaultCategory, now)
  }

  type Dict = map<string, string>

  const Keys: set<string> := {"name", "phone", "email", "address", "category", "created_at"}

  function ToDict(c: Contact): (d: Dict)
    ensures d.Keys == Keys
  {
    map["name" := c.name, "phone" := c.phone, "email" := c.email, "address" := c.address,
        "category" := c.category, "created_at" := c.createdAt]
  }

  /**
   * `Contact.from_dict(data)` at clock reading `now`: `None` where Python
   * raises a `KeyError` for a missing name, phone, email or address.
   */
  function FromDict(data: Dict, now: string): (r: Option<Contact>)
    ensures r.Some? <==> "name" in data && "phone" in data && "email" in data && "address" in data
    ensures r.Some? ==> r.value.name == data["name"] && r.value.phone == data["phone"]
                        && r.value.email == data["email"] && r.value.address == data["address"]
    ensures r.Some? ==> r.value.category == (if "category" in data then data["category"] else DefaultCategory)
    ensures r.Some? ==> r.value.createdAt == (if "created_at" in data then data["created_at"] else now)
  {
    if "name" !in data || "phone" !in data || "email" !in data || "address" !in data then None
    else
      var c := NewContact(data["name"], data["phone"], data["email"], data["address"],
                          if "category" in data then Some(data["category"]) else None, now);
      Some(c.(createdAt := if "created_at" in data then data["created_at"] else now))
  }

  /** Reading back a contact's dictionary gives the same contact, whatever the clock says. */
  lemma FromDictToDict(c: Contact, now: string)
    ensures FromDict(ToDict(c), now) == Some(c)
  {
  }

  /** A dictionary without category or timestamp gets the default category and the current time. */
  lemma FromDictDefaults(name: string, phone: string, email: string, address: string, now: string)
    ensures var d := map["name" := name, "phone" := phone, "email" := email, "address" := address];
      FromDict(d, now) == Some(Contact(name, phone, email, address, DefaultCategory, now))
  {
  }
}
