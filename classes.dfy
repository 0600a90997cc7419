/** The example class hierarchy: `Animal` with its subclass `Dog`, and the
    abstract `Vehicle` with its one implementation `Car`. Every field is set
    once by a constructor and never reassigned, so each object is a value;
    the subclass is a second constructor of the same datatype, and a method
    that the subclass overrides dispatches on it. */
module Classes {

  /** An `Animal`, or a `Dog` (an animal with a breed). Ages are whole
      non-negative numbers here. */
  datatype Animal =
    | Animal(name: string, age: nat)
    | Dog(name: string, age: nat, breed: string)
  {
    /** `speak()`: the name followed by what the animal says; `Dog`
        overrides the base class's wording. */
    function Speak(): (r: string)
      ensures |r| > |name| && r[..|name|] == name
      ensures Animal? ==> r[|name|..] == " makes a sound"
      ensures Dog? ==> r[|name|..] == " barks!"
    {
      match this
      case Animal(n, _) => n + " makes a sound"
      case Dog(n, _, _) => n + " barks!"
    }

    /** `getAge()`, inherited unchanged by `Dog`. */
    function GetAge(): nat
    {
      age
    }

    /** `getBreed()`, which only a `Dog` has. */
    function GetBreed(): string
      requires Dog?
    {
      breed
    }
  }

  /** The getters return what the constructors were given, and a dog's age
      is read exactly as an animal's. */
  lemma GettersReturnConstructorArguments(name: string, age: nat, breed: string)
    ensures Animal(name, age).GetAge() == age
    ensures Dog(name, age, breed).GetAge() == age
    ensures Dog(name, age, breed).GetBreed() == breed
  {
  }

  /** The override is observable: a dog never speaks like an animal, and
      within one kind what is said determines the name. */
  lemma {:induction false} SpeakDistinguishes(a: Animal, b: Animal)
    ensures a.Animal? && b.Dog? ==> a.Speak() != b.Speak()
    ensures a.Animal? == b.Animal? && a.Speak() == b.Speak() ==> a.name == b.name
  {
    var ra, rb := a.Speak(), b.Speak();
    if a.Animal? && b.Dog? {
      assert ra[|ra| - 1] == " makes a sound"[13] == 'd';
      assert rb[|rb| - 1] == " barks!"[6] == '!';
    }
    if a.Animal? == b.Animal? && ra == rb {
      assert |a.name| == |b.name| by {
        if a.Animal? {
          assert |ra| == |a.name| + 14 && |rb| == |b.name| + 14;
        } else {
          assert |ra| == |a.name| + 7 && |rb| == |b.name| + 7;
        }
      }
      assert a.name == ra[..|a.name|] == rb[..|b.name|] == b.name;
    }
  }

  /** A `Vehicle`; `Car` is its only concrete subclass, since the base class
      is abstract. */
  datatype Vehicle = Car(brand: string, model: string)
  {
    /** `startEngine()`: brand, a space, model, then " engine started!". */
    function StartEngine(): (r: string)
      ensures |r| == |brand| + 1 + |model| + 16
      ensures r[..|brand|] == brand && r[|brand|] == ' '
      ensures r[|brand| + 1..|brand| + 1 + |model|] == model
      ensures r[|brand| + 1 + |model|..] == " engine started!"
    {
      brand + " " + model + " engine started!"
    }

    /** `getBrand()`. */
    function GetBrand(): string
    {
      brand
    }

    /** `getModel()`. */
    function GetModel(): string
    {
      model
    }
  }

  /** For a given brand, the message names the model: two cars of one brand
      with different models announce different messages. */
  lemma StartEngineNamesModel(brand: string, m1: string, m2: string)
    requires m1 != m2
    ensures Car(brand, m1).StartEngine() != Car(brand, m2).StartEngine()
  {
    var r1, r2 := Car(brand, m1).StartEngine(), Car(brand, m2).StartEngine();
    if |m1| == |m2| {
      assert r1[|brand| + 1..|brand| + 1 + |m1|] == m1;
      assert r2[|brand| + 1..|brand| + 1 + |m2|] == m2;
    }
  }

  /** The getters return the constructor's arguments. */
  lemma CarGettersReturnConstructorArguments(brand: string, model: string)
    ensures Car(brand, model).GetBrand() == brand && Car(brand, model).GetModel() == model
  {
  }
}
