/** The Person entity: a mutable object with an id and five text fields, every one of
    which may be unset (null in the Java object). */
module PersonEntity {
  import opened Wrappers

  /** The value of a Person whose six fields are all set: one record as the CSV loader
      produces it. */
  datatype PersonRecord = PersonRecord(
    id: int,
    firstname: string,
    lastname: string,
    zipcode: string,
    city: string,
    color: string)

  class Person {
    var id: Option<int>
    var firstname: Option<string>
    var lastname: Option<string>
    var zipcode: Option<string>
    var city: Option<string>
    var color: Option<string>

    /** The no-argument constructor leaves every field unset. */
    constructor Empty()
      ensures id == None && firstname == None && lastname == None
      ensures zipcode == None && city == None && color == None
    {
      id := None;
      firstname, lastname, zipcode, city, color := None, None, None, None, None;
    }

    /** The five-argument constructor stores each argument in the field of the same name;
        the id stays unset until SetId. */
    constructor (firstname: string, lastname: string, zipcode: string, city: string, color: string)
      ensures this.firstname == Some(firstname) && this.lastname == Some(lastname)
      ensures this.zipcode == Some(zipcode) && this.city == Some(city) && this.color == Some(color)
      ensures id == None
    {
      this.id := None;
      this.firstname := Some(firstname);
      this.lastname := Some(lastname);
      this.zipcode := Some(zipcode);
      this.city := Some(city);
      this.color := Some(color);
    }

    /** The id setter: sets the id and nothing else. */
    method SetId(id: int)
      modifies this`id
      ensures this.id == Some(id)
      ensures firstname == old(firstname) && lastname == old(lastname)
      ensures zipcode == old(zipcode) && city == old(city) && color == old(color)
    {
      this.id := Some(id);
    }

    /** Every field is set and together they spell out r. */
    predicate Holds(r: PersonRecord)
      reads this
    {
      && id == Some(r.id)
      && firstname == Some(r.firstname)
      && lastname == Some(r.lastname)
      && zipcode == Some(r.zipcode)
      && city == Some(r.city)
      && color == Some(r.color)
    }
  }
}
