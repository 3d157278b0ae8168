// What items are told apart by (Item::equals in item.cpp), and how high they stack
module ItemTypes {

  const STACK: nat := 100

  // The type, which says whether items of it stack, and the attributes
  datatype Kind = Kind(id: nat, stackable: bool, attributes: nat)
}
