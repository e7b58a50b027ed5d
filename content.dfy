/** The content records the core reads: topics with their subtopics
    (src/data/anesthesiaTopics.ts) and drug records with their dosages
    (the `DrugInfo` and `DrugDosage` interfaces of
    src/components/Pharmaceuticals.tsx). Only the fields some core
    operation reads are kept. */
module Content {

  /** A titled list of bullet points; identified by its topic and its index. */
  datatype Subtopic = Subtopic(title: string, content: seq<string>)

  datatype Topic = Topic(id: int, title: string, description: string, subtopics: seq<Subtopic>)

  datatype Dosage = Dosage(species: string, route: string, amount: string, frequency: string)

  /** A drug record; `drugClass` is the source's `class` field. */
  datatype Drug = Drug(id: string, name: string, drugClass: string, description: string, dosages: seq<Dosage>)
}
