/** A flashcard: a question/answer pair, identified only by its position in a deck. */
module Cards {

  datatype Card = Card(question: string, answer: string)
}
